# Reddit post notifier — a verified model of its core

The notifier watches a set of subreddits ("feeds"). It runs one listener
thread per feed (`listenForPosts`). Each listener reads the feed's post
stream and admits posts that are fresh. It emails every subscriber who
asked for email, and saves the feed's checkpoint: the creation time of the
last post it handled. The checkpoints live in a process-wide dictionary and
in a text file of `<feed> <seconds>` lines, which is read back at the start
of every run. A supervisor (`main`) refuses to start twice, restarts the
listeners at most five times when one of them dies, and waits a bounded
time for them to reach a safe point before it exits.

The model has seven modules:

- `Wrappers` — `Option` and `Result`.
- `SeqFacts` — three small generic facts about sequences.
- `CheckpointText` — the checkpoint file format.
  - Python's `split(" ")`, `splitlines()`, `int()` and `str()` are written
    out on strings.
  - The loader is the function `LoadLines`/`LoadText` and the writer is
    `Serialize`.
  - It proves that the text round-trips, and exactly when a load fails.
- `Checkpoints` — the dictionary and the file as a class,
  `CheckpointStore`.
  - The dictionary's insertion order is a `names` sequence beside the
    `times` map.
  - The file is an optional string.
  - `Load`, `Write` and `Reload` are methods proved against the
    `CheckpointText` functions.
- `Recipients` — `send_notifications` and `get_user_email`.
  - Selection is a function with its error paths.
  - It is proved to pick exactly the enabled subscribers' emails, in order.
  - Loop-based methods are proved equal to that function.
- `Watcher` — one listener.
  - `Next`/`NextAll` give the effect of one event and of a run of events on
    the listener's state.
  - Invariants and safety properties are proved about them.
  - The class `FeedWatcher` performs the same steps on its fields and on the
    shared `CheckpointStore`, and is proved to agree with `NextAll`.
- `Supervisor` — `main`'s bookkeeping.
  - The start guard, the restart loop, the dead-thread monitor and the
    bounded exit wait.
  - The start guard is a predicate. The restart loop, the monitor and the
    exit wait are methods with loops, proved against small specification
    functions.

The stream, the clock, the file system's running file, the Firebase
records and the notification transport are inputs:

- the listener gets a sequence of `Event`s;
- an `Arrival` carries the post, the current time, whether the running file
  exists, and how the transport behaves during that dispatch pass;
- the supervisor gets one `Cycle` of observations per run of its restart
  loop.

### Where the code and the design intent differ

The checkpoint is meant to say how far a feed has been processed, so it
would be expected to only move forward. The code saves the creation time of
whatever admitted post arrives last (`reddit_post_notifier.py:171`), so an
older post that arrives later moves it back. The model follows the code.
`Watcher.CheckpointFollowsArrivalOrder` shows the regression on a concrete
run.

The comment at `reddit_post_notifier.py:150-151` describes duplicate sends
after a dispatch pass fails part-way. The model keeps them, not fixed:
`Watcher.ResendAfterPartialFailure` shows a post that goes out twice that way.

A second kind of duplicate send has a different cause. The start time is
computed once, before the retry loop (`reddit_post_notifier.py:126-128`), and
is not moved forward when the stream is opened again after an error
(`reddit_post_notifier.py:135-139`). So a post that the new stream yields
again is admitted and notified again. `Watcher.ReplayAfterStreamError` shows
this on a concrete run.

## Model

| member | source | states |
|---|---|---|
| CheckpointText.Split | reddit_post_notifier.py:215 | definition of `split(" ")`: the pieces between separators, in order; its contract says there is always at least one piece, as Python never returns an empty list here |
| CheckpointText.SplitLines | reddit_post_notifier.py:214 | definition of `splitlines()` for `'\n'` breaks: the pieces between breaks, without the empty piece after a final break; `SplitLinesSerialized` states what it gives on a written file |
| CheckpointText.SplitCount | reddit_post_notifier.py:215 | `split(" ")` yields exactly one more field than the line has spaces, so a kept line (two fields) holds exactly one space |
| CheckpointText.SplitJoin | reddit_post_notifier.py:215 | splitting loses nothing: joining the fields with the separator gives the line back, and no field contains the separator |
| CheckpointText.IntToString | reddit_post_notifier.py:238 | definition of `str()` on an integer: a minus sign for a negative value, then the decimal digits without leading zeros; `ParseIntOfString` and `NumberIsOneField` state its properties |
| CheckpointText.ParseInt | reddit_post_notifier.py:217 | definition of `int()`: an optional sign and at least one decimal digit give their value; anything else is `None`, where Python raises `ValueError` |
| CheckpointText.ParseIntOfString | reddit_post_notifier.py:217 | `int()` applied to what `str()` printed for an integer (line 238) gives that integer back, negative values included |
| CheckpointText.NumberIsOneField | reddit_post_notifier.py:238-239 | a printed value holds no space and no line break, so it stays one field of one line |
| CheckpointText.ParseLine | reddit_post_notifier.py:215-217 | definition of one loop step: not exactly two fields is skipped, two fields with a non-integer value raise, otherwise the line sets the first field to the value; `ParseLineCases` states the cases |
| CheckpointText.ParseLineCases | reddit_post_notifier.py:215-217 | a line is skipped exactly when it does not hold exactly one space; otherwise it is the feed name, a space and a value field, and it sets an entry exactly when `int()` accepts that field |
| CheckpointText.Line | reddit_post_notifier.py:238-239 | definition of one written entry without its break: the feed name, one space and `str()` of the value; `ParseLineOfLine` states that the loader reads it back |
| CheckpointText.ParseLineOfLine | reddit_post_notifier.py:238-239 | the loader reads the line the writer emits for a feed without spaces back as that feed and value |
| CheckpointText.LoadLines | reddit_post_notifier.py:212-217 | a failed load names a line that exists and whose value field `int()` rejects |
| CheckpointText.LoadText | reddit_post_notifier.py:212-217 | definition of `load_last_submission_times` on the file's text: `LoadLines` over its `splitlines()`; the lemmas below state what it yields |
| CheckpointText.LoadedValues | reddit_post_notifier.py:214-217 | after a load that does not raise, a feed that some line sets holds the value of the last line that sets it; a feed that no line sets is present and valued exactly as before the load |
| CheckpointText.LoadIdempotent | reddit_post_notifier.py:214-217 | loading the same lines again over the dictionary they produced gives that dictionary back |
| CheckpointText.LoadTextIdempotent | reddit_post_notifier.py:319-324 | reloading the same file in a later cycle, over the dictionary it already produced, changes nothing |
| CheckpointText.LoadFailsAtFirstBadLine | reddit_post_notifier.py:212-217 | the load raises exactly when some line has two fields and a non-integer value, and then at the first such line; every earlier line parses |
| CheckpointText.LoadTextFails | reddit_post_notifier.py:212-217 | whether loading a file raises depends on the file's text alone, not on the dictionary it is loaded into |
| CheckpointText.HasBadValue | reddit_post_notifier.py:212-217 | definition of a file whose load raises: some line has exactly two fields and a value `int()` rejects; `LoadTextFails` states that the load fails exactly then |
| CheckpointText.LoadErrorSticks | reddit_post_notifier.py:214-217 | once a line raises, later lines do not matter: the whole load fails at the same line |
| CheckpointText.LoadEntryLines | reddit_post_notifier.py:214-217 | loading the written lines over any dictionary sets exactly the written feeds to their values and keeps every other entry |
| CheckpointText.Printed | reddit_post_notifier.py:239 | definition of `last_submission_sec.get(key, "10000")`: the key's value, or 10000 for a key without one, which the writer never asks for |
| CheckpointText.Serialize | reddit_post_notifier.py:236-239 | definition of the text `write_last_submission_time` builds: one `name value` line with its break per key, in key order, each value as `get(key, "10000")` prints it; `SerializeLast`, `SplitLinesSerialized` and `CheckpointRoundTrip` state its properties |
| CheckpointText.SerializeLast | reddit_post_notifier.py:237-239 | the written text for a key order is the text for all keys but the last, followed by the last key's line and its break |
| CheckpointText.SplitLinesSerialized | reddit_post_notifier.py:236-239 | cutting the written file into lines gives back exactly the lines written, one per entry in dictionary order, with no empty line after the final break |
| CheckpointText.CheckpointRoundTrip | reddit_post_notifier.py:233-243 | loading the file the writer saved for a dictionary (feed names without spaces or line breaks) over any dictionary yields the old dictionary overridden by the saved one |
| Checkpoints.Insert | reddit_post_notifier.py:217 | definition of the key order after `last_submission_sec[k] = v` (also line 235): a new key goes last, an existing key keeps its place; `IndexesInsert` states its properties |
| Checkpoints.IndexesInsert | reddit_post_notifier.py:235 | setting a key keeps the key order duplicate-free and complete: a new key goes last, an existing key keeps its place |
| Checkpoints.LoadedNames | reddit_post_notifier.py:214-217 | definition of the key order after loading lines: each line that sets a feed inserts it, in file order; `LoadedNamesGrow` and `LoadedNamesIdempotent` state its properties |
| Checkpoints.LoadedNamesGrow | reddit_post_notifier.py:214-217 | a load keeps the old key order as a prefix, adds every feed some line sets, and adds no feed that no line sets |
| Checkpoints.LoadedNamesKnown | reddit_post_notifier.py:214-217 | loading lines that set only feeds already present leaves the key order as it is |
| Checkpoints.LoadedNamesIdempotent | reddit_post_notifier.py:319-324 | reloading the same file over the key order it already produced leaves that order as it is |
| Checkpoints.Render | reddit_post_notifier.py:236-239 | the writer's `+=` loop builds one `name value` line with its break per key, in key order, each value as `get(key, "10000")` prints it: exactly the text `Serialize` defines |
| Checkpoints.SerializeNext | reddit_post_notifier.py:237-239 | each turn of the writer's loop appends exactly the current key's line and its break to the text built so far |
| Checkpoints.CheckpointStore.constructor | reddit_post_notifier.py:59 | the dictionary starts empty; the file is whatever is on disk |
| Checkpoints.CheckpointStore.Get | reddit_post_notifier.py:126 | definition of `last_submission_sec.get(feed, 0)`: the feed's entry, or 0 when it has none |
| Checkpoints.CheckpointStore.EnsureFile | reddit_post_notifier.py:319-322 | a missing checkpoint file is created empty; an existing one is left alone |
| Checkpoints.CheckpointStore.Load | reddit_post_notifier.py:212-217 | a missing file leaves the dictionary and key order as they were; otherwise the dictionary becomes the load of the file's lines on top of its old contents, or, when a line raises, holds exactly the lines before it; the key order is the old one with each feed a line sets inserted in file order (new feeds last, in order of first appearance), up to the raising line |
| Checkpoints.CheckpointStore.Reload | reddit_post_notifier.py:319-324 | after the file is ensured, the dictionary is the load of the file over its old contents, or the load reports the failing line; the key order is the old one with the file's feeds inserted in file order, up to a raising line |
| Checkpoints.CheckpointStore.Set | reddit_post_notifier.py:235 | the feed's entry becomes the given value, every other entry is unchanged, and a new feed goes last in the key order |
| Checkpoints.CheckpointStore.Save | reddit_post_notifier.py:236-243 | the file is rewritten as the dictionary's lines in key order |
| Checkpoints.CheckpointStore.Write | reddit_post_notifier.py:233-243 | under the lock, the feed's entry is set, every other entry is unchanged, and the file holds the whole dictionary in key order |
| Checkpoints.WrittenFileReloads | reddit_post_notifier.py:233-243 | the file `Write` saves loads, into an empty dictionary, to exactly the dictionary it was saved from, when no feed name holds a space or a line break |
| Recipients.EmailOf | reddit_post_notifier.py:207-209 | `get_user_email` succeeds exactly when the users record exists, has the user and the user has an email, and then returns that email |
| Recipients.Recipients | reddit_post_notifier.py:198-202 | definition of the selection loop: per subscriber in order, a missing flag raises, a false flag is skipped, and a true flag appends the user's email or raises the lookup's error; the lemmas below state the result |
| Recipients.RecipientsAreEnabledEmails | reddit_post_notifier.py:199-202 | selection succeeds exactly when no subscriber lacks the flag and no enabled subscriber's email lookup raises; the emails are then one per enabled subscriber, in preference order, each that subscriber's email |
| Recipients.RecipientsFirstProblem | reddit_post_notifier.py:200-202 | a failed selection raises the error of the first subscriber that has one; every earlier subscriber is fine |
| Recipients.RecipientsErrorSticks | reddit_post_notifier.py:200-202 | once a subscriber's lookup raises, later subscribers are never looked at |
| Recipients.Notification | reddit_post_notifier.py:196-204 | definition of `send_notifications`' outcome: no preferences means no send; otherwise the selection's error is raised, or one send goes out when it found any emails |
| Recipients.NotificationRule | reddit_post_notifier.py:196-204 | one send goes out exactly when preferences exist, no lookup raises and someone asked for email, and it carries exactly their emails; no preferences means no send |
| Recipients.CollectEmails | reddit_post_notifier.py:198-202 | the loop collects the same emails, or raises the same error, as the selection function |
| Recipients.Notify | reddit_post_notifier.py:196-204 | `send_notifications` has the outcome of the notification function: no send, one send, or the raised error |
| Watcher.StartTime | reddit_post_notifier.py:126-128 | definition of the start time: the stored checkpoint, or the current time when it is absent or 0; `NoNotificationBeforeStart` states what it guarantees |
| Watcher.Admit | reddit_post_notifier.py:140-141 | definition of the filter: a post is handled only while the running file exists, when it is newer than the start time and at most 1800 seconds old |
| Watcher.PassSucceeds | reddit_post_notifier.py:152-154 | definition of a dispatch pass that completes: the transport is healthy, or the first call that raises comes after the last unsent post; `ArrivalRule` states what such a pass does |
| Watcher.Without | reddit_post_notifier.py:157 | definition of `unsent_submissions.remove(x)` on the ordered unsent set: every other post, in order; `WithoutFirst` states that removing the first of distinct posts leaves the rest, which is how `DispatchPass` empties the set |
| Watcher.AddUnsent | reddit_post_notifier.py:145 | definition of adding to the unsent set: a post already there is not added twice, a new one goes last; `AddUnsentKeeps` states that it stays duplicate-free |
| Watcher.AfterArrival | reddit_post_notifier.py:144-172 | definition of an admitted post's effect: it joins the unsent set, one dispatch pass runs, and its creation time is saved; `ArrivalRule` states the cases |
| Watcher.AfterStreamError | reddit_post_notifier.py:174-191 | definition of a stream failure's effect: the retry count rises by one, the listener goes on while it is below 5 and alerts the developer when it reaches 5; `RetryCountRule` and `ConsecutiveErrors` state its properties |
| Watcher.Next | reddit_post_notifier.py:135-192 | definition of one event's effect: a returned listener ignores events; an arrival is admitted or only sets `safe_to_stop`; a stream error is retried; the stream finishing ends the loop |
| Watcher.NextAll | reddit_post_notifier.py:123-193 | definition of a run of events, oldest first; `NextAllKeepsInv`, `NothingLost` and `StoppedIgnoresRest` state its properties |
| Watcher.ArrivalRule | reddit_post_notifier.py:139-172 | an arriving post saves a checkpoint exactly when admitted, and that checkpoint is its creation time; a rejected post changes only `safe_to_stop`; an admitted post leaves the listener running; a complete pass notifies all unsent posts, empties the set, resets the retry count and sends no alert; a failed pass keeps every unsent post, the new one included, leaves the retry count alone and sends one dispatch-failure alert |
| Watcher.RetryCountRule | reddit_post_notifier.py:158-176 | only a stream failure raises the retry count, by one, and only a complete dispatch pass lowers it; the listener stops exactly when the stream ends or a stream failure brings the count to 5, so a failed dispatch pass never stops it; a stream failure alerts the developer exactly when the count reaches 5; an arrival sends a dispatch-failure alert exactly when it is admitted and its pass fails, and the stream ending sends none |
| Watcher.AddUnsentKeeps | reddit_post_notifier.py:145 | adding a post to the unsent set keeps it free of duplicates |
| Watcher.NextKeepsInv | reddit_post_notifier.py:139-192 | every event keeps the listener's invariant: unsent posts distinct, every unsent or notified post and every saved checkpoint newer than the start time, retry count at most 5 and below 5 while listening, `safe_to_stop` set between events |
| Watcher.NextAllKeepsInv | reddit_post_notifier.py:123-193 | the invariant holds after any run of events from a state that satisfies it |
| Watcher.NoNotificationBeforeStart | reddit_post_notifier.py:126-143 | from a listener's start, no post at or before the stored checkpoint (or the start clock, when there is none or it is 0) is ever notified or saved as a checkpoint |
| Watcher.UnsentUntilNotified | reddit_post_notifier.py:145-157 | one event never takes back a notification, and every unsent post stays unsent or is notified by that event |
| Watcher.NothingLost | reddit_post_notifier.py:145-157 | over any run, notifications only accumulate and every post unsent at the start is still unsent or was notified during the run |
| Watcher.StoppedIgnoresRest | reddit_post_notifier.py:135-137 | once the listener's loop has ended, later events change nothing |
| Watcher.ConsecutiveErrors | reddit_post_notifier.py:174-191 | k stream failures in a row raise the retry count by k, up to 5; the listener stops exactly when it reaches 5, and the developer is alerted once exactly then, never before; `safe_to_stop` is set; nothing else changes |
| Watcher.ResendAfterPartialFailure | reddit_post_notifier.py:150-157 | concretely: a pass that fails after notifying one post keeps it unsent, so a later pass notifies it again |
| Watcher.ReplayAfterStreamError | reddit_post_notifier.py:126-137 | concretely: the start time is not moved on a retry, so a post the restarted stream yields again is notified again |
| Watcher.CheckpointFollowsArrivalOrder | reddit_post_notifier.py:171 | concretely: an older post admitted after a newer one moves the saved checkpoint back |
| Watcher.FeedWatcher.constructor | reddit_post_notifier.py:124-134 | the start time is the stored checkpoint, or the current time when it is absent or 0; the unsent set is empty and the retry count 0 |
| Watcher.FeedWatcher.DispatchPass | reddit_post_notifier.py:148-157 | a pass with no failing call notifies every unsent post in order and empties the set; a call that raises ends the pass, with the earlier posts notified and nothing removed from the set |
| Watcher.FeedWatcher.Deliver | reddit_post_notifier.py:144-172 | an admitted post has the effect `AfterArrival` specifies; the store's entry for the feed becomes the post's creation time, the feed goes last in the key order if it was new and keeps its place otherwise, and the file is rewritten in that order |
| Watcher.FeedWatcher.Retry | reddit_post_notifier.py:174-191 | a stream failure has the effect `AfterStreamError` specifies |
| Watcher.FeedWatcher.HandleEvent | reddit_post_notifier.py:139-192 | one event moves the fields as `Next` specifies; exactly the events that admit a post save its creation time in the store, with the feed inserted in the key order and the file rewritten; every other event leaves the store untouched |
| Watcher.FeedWatcher.Step | reddit_post_notifier.py:135-192 | one turn of the listener's loop moves the fields as `Next` specifies and keeps the store's state since the listener started: only the feed's entry changed, to the last checkpoint saved, and once it saved one the key order has the feed inserted and the file holds the dictionary |
| Watcher.FeedWatcher.Listen | reddit_post_notifier.py:123-193 | the listener ends in the state `NextAll` gives for the events; in the store only its own feed's entry changes, and that entry ends at the last checkpoint it saved; once it saved one, the feed has its place in the key order (last, if it was new; unchanged otherwise) and the file holds the whole dictionary in that order; until then neither the file nor the key order changes |
| Supervisor.ShouldStart | reddit_post_notifier.py:296-305 | definition of the start guard: in development a leftover running file is removed first, so `main` starts in development or when there is no running file |
| Supervisor.Quiet | reddit_post_notifier.py:335-338 | definition of a poll that lets the monitor sleep and poll again: the running file exists and no thread is dead; `MonitorOutcomeAt` states what a run of them leads to |
| Supervisor.MonitorOutcome | reddit_post_notifier.py:335-348 | definition of the monitor's verdict: the first poll without the running file stops it, the first poll with a dead thread restarts it, quiet polls go on; `MonitorOutcomeAt` states it |
| Supervisor.MonitorOutcomeAt | reddit_post_notifier.py:335-348 | the monitor's verdict is set by the first poll that does not let it sleep: a missing running file stops it, a dead thread restarts it |
| Supervisor.Monitor | reddit_post_notifier.py:334-348 | the monitor loop ends as `MonitorOutcome` says, after a run of quiet polls, and sends exactly one dead-thread alert when it ends on a dead thread and none otherwise |
| Supervisor.Blocks | reddit_post_notifier.py:356 | definition of a thread the exit wait waits for: not safe to stop and still alive; `ScanForBlocking` states the scan over them |
| Supervisor.MustWait | reddit_post_notifier.py:356 | definition of the scan's verdict: some thread blocks; `ScanForBlocking` states that the scan finds exactly this |
| Supervisor.ScanForBlocking | reddit_post_notifier.py:354-357 | the scan asks to wait exactly when some thread is alive and not safe to stop |
| Supervisor.WaitToExit | reddit_post_notifier.py:350-367 | the exit wait checks between 1 and 11 times and sleeps once fewer; every check but the last found a blocking thread, and the last found none unless the cap of 10 was hit |
| Supervisor.CyclesRun | reddit_post_notifier.py:308-318 | definition of the number of cycles the restart loop runs: it goes on after a cycle that ended on a dead thread, up to 6 cycles; `CyclesRunBound` states its bounds |
| Supervisor.DeadAlertCount | reddit_post_notifier.py:334-348 | definition of the dead-thread alerts of a run of cycles: one for each cycle but the last, which all ended on a dead thread, and one more when the last did |
| Supervisor.FileText | reddit_post_notifier.py:319-322 | definition of the file's text once `main` has made sure it exists: empty when it was missing |
| Supervisor.CyclesRunBound | reddit_post_notifier.py:308-318 | the restart loop runs between 1 and 6 cycles; every cycle but the last ended on a dead thread, and the last did not unless the cap was reached |
| Supervisor.CyclesRunExact | reddit_post_notifier.py:308-318 | a cycle count that stops where the restart loop stops is the count `CyclesRun` gives |
| Supervisor.RunCycle | reddit_post_notifier.py:319-367 | one cycle leaves the checkpoint file in place (created empty when missing); it raises exactly when the file has a non-integer value; otherwise the dictionary becomes the file's load over the old dictionary, the key order the old one with the file's feeds inserted in file order, and one dead-thread alert goes out exactly when the monitor ends on a dead thread |
| Supervisor.RestartLoop | reddit_post_notifier.py:308-367 | the restart loop raises in its first cycle exactly when the file has a non-integer value; otherwise it runs `CyclesRun` cycles, sends one restart alert before each cycle but the first and `DeadAlertCount` dead-thread alerts, and leaves the dictionary and its key order as the file's load over the ones it started with |
| Supervisor.Supervise | reddit_post_notifier.py:286-367 | `main` starts exactly in development or without a running file, and otherwise changes nothing, the key order included; a bad checkpoint value ends it in its first cycle; otherwise it runs `CyclesRun` cycles with one restart alert before each cycle but the first and one dead-thread alert for every cycle that ended on a dead thread, and the dictionary and its key order are the file's load over the ones it started with |

## Left out

- The post stream (praw), the clock and the running file's presence are inputs carried by `Watcher.Event`. `StreamEnd` is the stream's generator finishing without raising: the loop at line 135 then ends, because line 137 cleared `retry_necessary`. A run of events that ends without `StreamEnd` stands for a listener that is still running.
- Sleeps are not timed. The monitor's `time.sleep(60)` (line 348) is counted by `Monitor` as `quiet`, and the exit wait's `time.sleep(5)` (line 367) by `WaitToExit` as `sleeps`. The listener's `time.sleep(60)` after a stream error (line 191) is neither counted nor modelled: the next event follows directly. Logging and the config file are not modelled.
- Threads, their interleaving and the lock are not modelled. `Write` is one atomic method, which is what the lock provides. The store's `Write` stands for the shared dictionary and file.
- `Supervisor.Supervise`: the listeners' own checkpoint writes during a cycle are not interleaved with its reloads. Earlier cycles' threads, which the source never stops, are not modelled.
- The monitor's endless polling is modelled by a finite sequence of polls. When every poll is quiet, `Monitor` ends with `StillMonitoring`, and `RunCycle` then goes on to the exit wait, after which `main` ends. The source never leaves the monitor loop while the running file exists and every thread is alive (line 335), so such a cycle is a truncated run, not an ending the source has.
- `emailNotification` is an `Option<bool>`: absent, which raises `KeyError` at line 201, or a boolean. Python tests the flag's truthiness there, so JSON `null`, numbers, strings, lists and objects are accepted too; those values are not modelled.
- Firebase (`get_sub_preferences`, `get_all_users_preferences`) is modelled as values. The users record is one snapshot per dispatch, while the source fetches it again for every user.
- How the recipient lookup and the transport fail is represented in `Watcher` by `Transport.FailsOnCall`, the index of the first call of a pass that raises. `Recipients` states when such a raise happens, but is not wired into `Watcher`.
- SMTP, the developer's emails and PMs, and message texts are not modelled. Alerts are recorded as `Alert` values; a failure to send them is swallowed by the source and has no effect here.
- `get_subscribed_subs`, `create_running_file` with its pid contents, and thread start-up are not modelled. The supervisor sees only each thread's aliveness and `safe_to_stop`.
- Post creation times are whole seconds. Python's float `created_utc` and the `int(float(...))` truncation at line 235 are not modelled, so a fractional timestamp compared with the start time at line 140 is not captured.
- `splitlines()` is modelled for `'\n'` only; Python also breaks on `'\r'`, `'\x0b'`, `'\x0c'` and other line separators. `int()` is modelled as an optional sign and ASCII digits; surrounding whitespace, underscores and non-ASCII digits, which Python also accepts, are not.
- Python's set iteration order is arbitrary; the model's unsent set iterates in insertion order.
- A failing write of the checkpoint file, which would surface in the listener as a stream error, is not modelled.
- `Checkpoints.CheckpointStore.Write`: its contract does not state the round trip. The round trip holds only for feed names without spaces or line breaks and is stated separately in `Checkpoints.WrittenFileReloads`.
