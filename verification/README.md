# Left-member retention tracker of a Telegram join-request bot

The bot approves requests to join a channel and records every approved
member in a flat file of known member IDs (`joined_users.json`). Every 60
seconds it checks each known member's status in the channel. When a member
has left or been removed, the bot sends re-engagement reminders on a
time-gated cadence:

- the first reminder goes out at least 60 seconds after the member was first
  seen gone;
- later reminders go out at least 86400 seconds apart;
- no reminder is sent once 30 have been sent.

The cadence state is a departure record `{count, first_sent_at, last_sent_at}`.
The records live in a second flat file (`left_users.json`), keyed by the
member ID written in decimal. A member seen back in the channel loses the
record, so a later departure starts a fresh cadence.

This project models that tracker and the small file store under it, and
proves the cadence rules, its failure isolation and the store's fallback
behaviour.

- `JsonStore.dfy` (module `JsonStore`): a file's content is one of
  `Absent | Blank | Invalid | Valid(value)`. The module holds the
  read-with-fallback, overwrite and create-if-missing operations.
- `MemberKey.dfy` (module `MemberKey`): the decimal key `str(id)`. It proves
  that two IDs never share a key.
- `Cadence.dfy` (module `Cadence`): the departure record and the send gate.
  - `MemberStep` is one member's turn in a pass.
  - `Reconcile` is a whole pass over the known members.
  - `Run` is several passes.
  - The lemmas state the cadence properties for a whole pass.
- `Bot.dfy` (module `Bot`): class `Store` holds the two files as fields.
  - `SaveUser`, `HandleJoinRequest` and `CheckWhoLeft` are its methods.
  - `CheckWhoLeft` keeps the source's loop over the known members. It is
    proved to produce `Reconcile` of the IDs it read.
  - `CheckMember` is the loop body for one member. It is proved equal to
    `MemberStep`.

The gateway is a set of inputs.

- The chat-member query is a function `status: int -> StatusReply`. Its
  result is `QueryFailed` when the call raises, or `Reported(s)`.
- Fetching the profile and sending the reminder are one function
  `delivered: int -> bool`. It is true when both calls succeed. A failure of
  either leaves the record alone.
- Approving a join request is a `bool`.
- The clock is an integer `now`.

The code has these edge cases, and the model follows them:

- A stored record whose two timestamps are both `None` makes the elapsed-time
  subtraction raise a `TypeError` (main.py:150-154). The member is then
  skipped and the record stays as it is (`Gate.Fault`).
- A record with `first_sent_at = None` but `last_sent_at` set never opens the
  gate. It is stored back unchanged.
- When the count is at the cap, the code `continue`s without storing the
  record back. The map is unchanged either way.
- After a send, `first_sent_at` is kept as it is, even when it is `None`. The
  `.get(..., current_time)` at main.py:192 never supplies `now`, because the
  field is always present. A send only happens with the field set.
- Python mutates the stored record in place, because `user_data` aliases
  `left_users[key]`. The model treats the record as a value. This is
  equivalent: no statement between the in-place updates (main.py:153,
  190-192) and the store (main.py:197) can raise.

## Model

| member | source | states |
|---|---|---|
| JsonStore.LoadJsonFile | main.py:36-42 | a readable file yields exactly its stored mapping |
| JsonStore.LoadFallsBackToEmpty | main.py:36-42 | a missing, blank or undecodable file loads as the empty mapping instead of raising |
| JsonStore.LoadAfterSave | main.py:36-46 | loading what was saved gives back the saved mapping |
| JsonStore.ReadUserListAfterSave | main.py:44-46 | a member list that is written is read back unchanged |
| JsonStore.InitFile | main.py:48-53 | afterwards the file exists; a file that already existed is left as it was |
| JsonStore.InitFileIdempotent | main.py:48-53 | bootstrapping twice is bootstrapping once; a missing file gets the default; an undecodable file stays undecodable |
| JsonStore.ReadUserList | main.py:129-133 | a readable member file yields its list |
| JsonStore.ReadUserListFallsBackToEmpty | main.py:129-133 | a missing, blank or undecodable member file reads as the empty list |
| MemberKey.Decimal | main.py:142 | the numeral is all digits and non-empty; it has one digit exactly when the number is below 10; it ends in the last decimal digit |
| MemberKey.Key | main.py:142 | the key starts with '-' exactly when the ID is negative |
| MemberKey.DecimalInjective | main.py:142 | distinct natural numbers have distinct numerals |
| MemberKey.KeyInjective | main.py:142 | two IDs share a key only when they are equal |
| Cadence.SendGate | main.py:148-161 | the gate faults exactly when both timestamps are missing. It opens exactly when there is a first-seen time and either no reminder was sent and 60 s have passed since first seen, or 86400 s have passed since the last reminder |
| Cadence.MemberStep | main.py:139-205 | a member's turn changes no other key; a member reported in the channel has no record afterwards; records within the cap stay within it |
| Cadence.Reconcile | main.py:138-205 | a pass leaves alone every record whose key belongs to no member checked |
| Cadence.ReconcileExtend | main.py:138-205 | a pass over one more member is the shorter pass followed by that member's turn, in list order |
| Cadence.StepElsewhere | main.py:139-205 | a member's turn leaves every other key's record, or its absence, as it was |
| Cadence.StepLocal | main.py:142-197 | what a member's turn leaves under the member's key depends only on the record stored there |
| Cadence.PassAtMember | main.py:138-205 | with each member listed once, the pass leaves under a member's key exactly what that member's own turn leaves there; other members, and their failures, do not matter |
| Cadence.PassKeepsCountsCapped | main.py:145-146 | if every record has a count of at most 30 before a pass, every record does after it |
| Cadence.PassClearsRejoined | main.py:199-202 | a member reported in the channel has no record after the pass |
| Cadence.PassRespectsCap | main.py:145-146 | a record with a count of at least 30 is unchanged by a pass, at any time, unless the member is reported in the channel |
| Cadence.PassStartsClock | main.py:143-155 | a departed member with no record gets count 0, first-seen time now and no last-sent time, and is sent nothing on that pass |
| Cadence.PassRemindsOnlyWhenDue | main.py:145-197 | a stored record disappears only on a reported rejoin. Otherwise it changes only by one delivered reminder that was due: count + 1, last-sent time now, first-seen time kept, count below 30 before. The reminder was 60 s after first seen when none had been sent, 86400 s after the last one otherwise |
| Cadence.PassRemindsWhenDue | main.py:156-192 | a due reminder that is delivered to a departed member under the cap is recorded as one more reminder sent now |
| Cadence.PassKeepsUnsentRecord | main.py:139-205 | the record is unchanged when the status query fails, the delivery fails, or the record has no first-seen time |
| Cadence.RunRespectsCap | main.py:145-146 | across any number of passes, each over its own member list (joins may add members in between), a member at the cap gets no further reminder while no pass reports them back |
| Cadence.RejoinThenLeaveRestarts | main.py:141-202 | a member reported back and then gone again restarts at count 0, first seen at the second pass |
| Cadence.DepartureTimeline | main.py:143-197 | seen gone at t=0: no reminder at 0; the first at 65; none at 100; the second at 86466 |
| Bot.SavedUserFile | main.py:55-67 | afterwards the member file exists and lists the member |
| Bot.SaveUserAppends | main.py:55-67 | a new ID is appended at the end of the old list; a listed ID causes no write; the old list is always a prefix of the new one |
| Bot.SaveUserKeepsDistinct | main.py:63-66 | a member file with no repeated ID still has none after save_user |
| Bot.SaveUserIdempotent | main.py:55-67 | saving the same member twice is saving once |
| Bot.ForgetDeparture | main.py:82-86 | the loaded map loses exactly the member's key; a file without that key is not rewritten, even if undecodable |
| Bot.PassedLeftFile | main.py:125-207 | after a pass the departure file is always readable (it is rewritten), and a cap that held before still holds |
| Bot.CheckMember | main.py:139-205 | the loop body's effect on the map equals the member's turn `MemberStep`, failure paths included |
| Bot.Store.SaveUser | main.py:55-67 | the member file becomes `SavedUserFile` of the old one; the departure file is untouched |
| Bot.Store.HandleJoinRequest | main.py:73-86 | on failed approval both files are unchanged. Otherwise the member is listed in the member file, and the departure map loses exactly their key. A cap that held still holds |
| Bot.Store.CheckWhoLeft | main.py:125-207 | the member file is only bootstrapped. The departure file is overwritten once, with `Reconcile` over the listed members of the map loaded at the start |

## Left out

- Telegram gateway calls (approve join request, chat-member query, profile fetch, send message): foreign library calls. They are replaced by the `approved`, `status` and `delivered` inputs.
- The welcome message after an approved join request (main.py:88-123): its outcome changes no state, so it is not an input.
- Message texts, Markdown and inline keyboards (main.py:88-112, 166-188): presentation only.
- JSON text, serialisation and real file I/O: a file is its abstract content. A file holding valid JSON of the wrong shape, and I/O errors other than a missing file or a decode error (which propagate in the source), are not modelled.
- `time.time()` float arithmetic: time is an integer `now`. The float comparisons at main.py:154, 157 and 160 become integer comparisons with the same thresholds.
- Cadence.Reconcile: the gateway's answers are functions of the member ID. A member ID listed twice therefore gets the same replies both times in one pass. The source queries again, and the answers could differ. The lemmas that use `Distinct` assume each ID is listed once, which `save_user` maintains (`SaveUserKeepsDistinct`).
- Logging, environment and configuration loading (main.py:15-33): no effect on the tracked state.
- The aiohttp health and webhook endpoints, the keep-alive pinger, `main` and the 60-second scheduling (main.py:211-283): I/O and runtime plumbing.
- Interleaving of `handle_join_request` with a running `check_who_left`: each operation is modelled as atomic. The lost update this allows is not modelled: the pass's single save at the end can overwrite a deletion the join handler made during the pass.
