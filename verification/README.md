# Laundry bot: the laundry state and its handlers, in Dafny

This project models the in-memory state of a Telegram laundry bot and the operations that read and change it. The bot tracks the washers of several colleges. Users pick a college, ask to be told when a washer finishes, or join their college's queue. When a washer reports that it is free, the bot tells its watchers, serves the first user in the college's queue, and makes that user watch the washer.

The state is the class `Bot.LaundryBot`, with one field per table of the source:

- `machines`: college -> washer -> `Machine(state, updated)`. State `0` means available and `1` means in use. Any other integer is stored as given.
- `colleges`: the colleges of the machine database.
- `watch`: washer -> the chat ids to tell when it completes.
- `queue`: college -> the chat ids waiting there, first in line first.
- `users`: chat id -> the college it selected.
- `outbox`: the messages `machineupdate` sends. Each is a `Notice(id, kind, washer)`, with kind `Completed`, `YourTurn` or `WillNotify`. The button handlers' messages are not kept: `AvailableFor` and `InUseFor` return their lists instead of sending them.

`Valid()` is the object invariant:
- `colleges` is the set of registry colleges.
- Every registry college has a queue.
- Nobody is in a college's queue twice.

Every operation preserves it. Each operation's `modifies` clause names the only tables it may change.

Modules:
- `Strings`: Python's `<` on `str`, `list.sort()` as an insertion sort, and `str.replace(p, '')`.
- `Registry`: the machine catalog, the loaded registry, and the sorted listing of the washers in one state.
- `Callbacks`: the data carried by the inline buttons and how the handler parses it.
- `Bot`: the class and its operations.
- `Scenarios`: scenarios of the bot, proved from the contracts of its operations alone.

How the model reads the source where it crashes:
- `machineupdate` looks a washer up as `machines[college][washer]`, using the `college` argument. The code indexes `machines[washer]` (lines 129 and 135-136) and reads a `'college'` field that does not exist (line 144). See Findings.
- An update for a washer the registry does not have changes nothing and returns `UnknownMachine`. In the code, the `KeyError` makes the webhook answer 400.
- A washer nobody has watched has an empty watch list. The code raises `KeyError` at line 140.
- Freeing a washer while the college's queue is empty serves nobody. As written, the handler never gets that far: line 132 calls `strftime` on the timedelta computed at line 131, which raises `AttributeError` before the state is written at line 135. With that repaired, the `pop(0)` at line 147 would raise `IndexError` on an empty queue, after the state is recorded and the watchers are told.
- Watchers stay on a washer's list after they are told, as lines 140-142 do; they are told again each time the washer frees up. `Scenarios.WatchThenComplete` shows it.
- Watching a washer twice puts the user on its list twice: line 272 appends without a duplicate check.
- The loader enters every washer in use (state `1`), as line 100 does, although the comment at line 96 says `-1`.
- `users[id := college]`: selecting a college keeps other users' selections. The code replaces the whole table (line 214). See Findings.
- Python `dict` iteration order is not modelled. The loops visit keys in any order, and every result is a map or a sorted list, so the order does not matter.

## Model

| member | source | states |
|---|---|---|
| `Strings.Less` | bot.py:311 | Python's `<` on `str`, which the sorts at lines 253 and 311 use: code-point order on the first difference, a proper prefix below its extensions |
| `Strings.LessIrreflexive` | bot.py:311 | no string sorts before itself under Python's string order |
| `Strings.LessTransitive` | bot.py:311 | the string order `sort()` uses is transitive |
| `Strings.LessTotal` | bot.py:311 | any two distinct strings are ordered one way or the other |
| `Strings.LessAsymmetric` | bot.py:311 | two strings are never each below the other |
| `Strings.Sort` | bot.py:311 | `sort()` returns a permutation of its list (same multiset, same members) |
| `Strings.InsertSorted` | bot.py:311 | inserting into a non-decreasing list keeps it non-decreasing |
| `Strings.InsertDistinct` | bot.py:311 | inserting a new string into a list without repeats keeps it without repeats |
| `Strings.SortSorted` | bot.py:253 | the sorted list is non-decreasing |
| `Strings.SortDistinct` | bot.py:253 | sorting a list without repeats leaves it without repeats |
| `Strings.SortStrict` | bot.py:311 | sorting a list without repeats gives a strictly increasing list |
| `Strings.StartsWith` | bot.py:210 | `data.startswith(p)`, as the button tests at lines 210 and 268 use it: the first `len(p)` characters of the data are `p` |
| `Strings.RemoveAll` | bot.py:211 | `data.replace(p, '')` never lengthens the data |
| `Strings.RemoveAllAbsent` | bot.py:269 | `replace` leaves a string that does not contain the pattern unchanged |
| `Strings.PrefixRemoved` | bot.py:211 | stripping the button prefix from prefix+name gives back the name, when the name does not contain the prefix |
| `Registry.InitialRoom` | bot.py:94-100 | the room the loader builds for one college: each washer of its catalog entry at state 1 and the load time, and nothing else |
| `Registry.InitialRegistry` | bot.py:88-100 | the registry the loader's two loops build: for each catalog college, a room with each of its washers at state 1 and the load time |
| `Registry.InitialRegistryContents` | bot.py:88-100 | after loading, the registry holds exactly the catalog's washers under their colleges, each in state 1 stamped with the load time |
| `Registry.ListingUnique` | bot.py:305-311 | a set of washers has exactly one strictly sorted, repeat-free listing, so the lists below are determined by the set |
| `Registry.ListingTail` | bot.py:305-311 | the tail of a listing lists the set without its least washer |
| `Registry.ListByState` | bot.py:305-311 | filtering a college's washers by state and sorting gives exactly the washers in that state, strictly increasing, each once |
| `Registry.Found` | bot.py:125-136 | the registry has an entry for this washer under this college, as the corrected lookup `machines[college][washer]` needs |
| `Registry.FoundAsWritten` | bot.py:129 | the lookup as written, `machines[washer]['updated']`: the washer name is a registry key whose entry has an `updated` field |
| `Registry.LookupAsWrittenMisses` | bot.py:129 | with the loaded registry, the lookup `machines[washer]['updated']` fails for every washer whose name is not a college, while the lookup by college and washer succeeds |
| `Callbacks.RoomButton` | bot.py:182 | the data of the button offering a college: `ROOM=` followed by the college |
| `Callbacks.WasherButton` | bot.py:258 | the data of the button offering a washer, with the placeholder filled in: `WASHER=` followed by the washer |
| `Callbacks.Payload` | bot.py:211 | what the handler makes of a recognised button: `data.replace(prefix, '')`, as at lines 211 and 269 |
| `Callbacks.WasherButtonAsWritten` | bot.py:258 | the washer button's data as written: `'WASHER='.format(item)`, which is the bare prefix whatever the washer |
| `Callbacks.SelectAsWritten` | bot.py:214 | the selection table as written after a selection: `{id: data}`, holding only the selecting user |
| `Callbacks.RoomRoundTrip` | bot.py:210-211 | a college button (line 182) is recognised by its prefix and gives back its college |
| `Callbacks.WasherButtonAsWrittenLosesWasher` | bot.py:258 | as written, every washer button parses to the empty washer name, never to the washer shown |
| `Callbacks.WasherRoundTrip` | bot.py:268-269 | with the washer filled in, a washer button is recognised and gives back its washer |
| `Callbacks.SelectAsWrittenForgets` | bot.py:214 | as written, one user's selection erases every other user's selection |
| `Bot.Watchers` | bot.py:140 | the watch list of a washer, `watch[washer]` as read at lines 140, 153 and 272, with a washer nobody has watched read as the empty list |
| `Bot.Completions` | bot.py:140-142 | one completion notice per watcher, in watch-list order, naming the washer |
| `Bot.LoadRoom` | bot.py:95-100 | the inner loop of the loader builds the college's room: every washer of the catalog entry, in use at the load time |
| `Bot.LaundryBot.Load` | bot.py:88-100 | loading: saved users and watch lists kept; the registry is the catalog with every washer in use; each catalog college gets an empty queue; other saved queues kept; invariant established |
| `Bot.LaundryBot.GetAvailable` | bot.py:301-313 | exactly the college's washers in state 0, strictly sorted, each once |
| `Bot.LaundryBot.AvailableFor` | bot.py:236-245 | `NoSelection` for a user who picked no college; `UnknownCollege` for a college outside the registry; otherwise the available listing of the user's college |
| `Bot.LaundryBot.InUseFor` | bot.py:246-253 | same error cases; otherwise exactly the washers of the user's college in state 1, strictly sorted, each once |
| `Bot.LaundryBot.SelectCollege` | bot.py:210-216 | the user's selection becomes the college named by the button; every other selection and every other table is unchanged |
| `Bot.LaundryBot.AddWatcher` | bot.py:268-274 | the user is appended at the end of the washer's watch list, which is created if absent; no other washer's list changes |
| `Bot.LaundryBot.JoinQueue` | bot.py:279-296 | refused with the queue unchanged when the college has an available washer, or when the user is already queued there; otherwise the user is appended to that college's queue only, and the count of people ahead equals the queue's length before; queues stay repeat-free |
| `Bot.LaundryBot.MachineUpdate` | bot.py:125-158 | an unknown washer changes nothing; otherwise only that washer's state and time change; a non-zero state touches no watch list, queue or message; state 0 tells every watcher, pops the front of the college's queue (if any), tells that user it is their turn and that they will be notified, and appends them to the washer's watch list |
| `Scenarios.WatchThenComplete` | bot.py:139-142 | a watcher is told when the washer frees up, the empty queue stays empty, and the watcher is told again the next time |
| `Scenarios.DispatchInArrivalOrder` | bot.py:139-157 | three users queued while the washer is busy are told 0, 1, 2 ahead, are served in the order they joined, and end up watching the washer in that order; a join while the washer is free is refused |

## Left out

- Telegram I/O is not modelled: `send`, `start`, `feedback`, `edit_message_text`, `answer_callback_query`, and building keyboards from button lists. The messages `machineupdate` sends become `Notice` values in `outbox`, keyed by kind; their text is not kept. The messages of the button handlers (the available-washer count at line 245, the washer menu built at lines 255-259, the pop-up answers) are not kept: `AvailableFor` and `InUseFor` return the lists those messages are built from.
- The routing chain in `callbackquery` (lines 210, 236, 246, 268, 279) is not modelled as one operation. Each branch is its own method, and a branch's prefix test is its precondition.
- The Flask webserver and the JSON extraction in `postupdate` (lines 105-122) are network plumbing. `MachineUpdate` receives the washer, the integer state and the college directly.
- JSON persistence is left out: `write_json` and the file reads and writes in `loader` and the handlers. The saved tables are parameters of `LaundryBot.Load`. As written, the dumps at lines 150, 154, 273 and 292 go to a file opened for reading (`open(path)` with no mode), so `json.dump` raises and cuts the handler short at that point. The college selection opens `users.json` in append mode (line 215), so its dump goes through. In the watch button (lines 273-274), this happens after the append and before the pop-up answer. In the queue button (lines 292-293), it happens after the append and before the "people ahead" answer. The model keeps the table updates and leaves the pop-up answers out with the rest of the Telegram I/O.
- The machine database module `parameters` is not part of this model. Its `machine_database` is the `catalog` parameter.
- The duration computation (lines 129-133) reads the clock, subtracts the two times, and calls `strftime` on the resulting timedelta, which has no such method. Times are integer parameters, and the completion notice carries no duration.
- Bot.LaundryBot.Load: every washer gets the same load time `now`; the code calls `datetime.now()` once per washer.
- Bot.LaundryBot.MachineUpdate: does not reproduce the `IndexError` that an empty queue raises at line 147, nor the `KeyError` for a washer without a watch list at line 140. Both are modelled as "nothing to do" (see above).
- Bot.LaundryBot.MachineUpdate: follows the evident intent past two crashes in the code as written. First, the `AttributeError` at line 132 (`strftime` on a timedelta) aborts every update before the state is written at line 135. Second, the `json.dump` into the queue file opened for reading at lines 150-151 raises after the pop and the "your turn" message. So, as written, the served user is never appended to the washer's watch list (line 153) and never gets the message at lines 156-157. The model's state-0 case does both.
- `@run_async` concurrency, logging and the `print` calls are left out. The model is sequential.

## Findings

| source | as written | input that shows it | evidently intended | confidence | as-written member | corrected member |
|---|---|---|---|---|---|---|
| bot.py:214 | `users = {id:data}` replaces the whole selection table | user U1 selected A, then U2 selects B: U1's entry is gone, and U1's next "Check Available Washers" raises `KeyError` | `users[id] = data` | high; not executed | `Callbacks.SelectAsWrittenForgets` | `Bot.LaundryBot.SelectCollege` |
| bot.py:258 | `callback_data='WASHER='.format(item)` has no `{}`, so every washer button carries `WASHER=` | any washer, e.g. `M1`: its button parses to the washer `''`, so the user watches a washer that never reports | `'WASHER={}'.format(item)` | high; not executed | `Callbacks.WasherButtonAsWrittenLosesWasher` | `Callbacks.WasherRoundTrip` |
| bot.py:129 | `machines[washer]['updated']` indexes the college-keyed registry by washer (also lines 135-136), and line 144 reads a `'college'` field that the entries built at line 100 do not have: they hold only `state` and `updated` | catalog `{A: [M1]}`, update for `M1` in `A`: `machines['M1']` raises `KeyError` and no state is ever recorded | `machines[college][washer]` | high; not executed | `Registry.FoundAsWritten`, `Registry.LookupAsWrittenMisses` | `Bot.LaundryBot.MachineUpdate` |
