# Eloquence for NVDA: a Dafny model of the driver's core

This project models the sequential core of the Eloquence speech-synthesizer
driver for the NVDA screen reader. The driver runs the 32-bit Eloquence
engine in a separate host process and talks to it over a message
connection.

Four parts are modelled:

- **The client's bookkeeping** (`_eloquence.py`): `send_command`, the
  receiver thread, the stop epoch, the synthesis and audio worker threads,
  and the engine parameter API.
  - The command channel keeps a pending-request table, a response table and
    the waiters' signals.
  - The stop epoch `_sequence` and the batch epoch `_current_seq` tag queued
    work, so the workers can drop work that a stop has made stale.
  - The engine API covers `cmdProsody`, `setVParam`, `set_voice` and
    `setVariant`, together with the `params` and `voice_params` tables.
- **The caller side of the driver** (`addon/synthDrivers/eloquence.py`):
  - joining adjacent strings;
  - the command batch `speak` builds;
  - resolving a language tag to a voice;
  - voice-state and variant bookkeeping.
- **The self-updater's planning** (`addon/synthDrivers/_eloquence_updater.py`):
  - version comparison and the choice of release asset;
  - sorting files into added, modified, deleted and preserved;
  - the user's decisions and the merge progress.
- **Text preprocessing dispatch** (`addon/synthDrivers/_text_preprocessing.py`):
  which fix tables apply to each voice, and whether the text is narrowed to
  the code page.

Every thread iteration is one atomic step on an immutable state record.
Some things are parameters:

- Whatever the host process answers comes from an oracle, `Host`. It is
  indexed by the number of calls made so far, so every sequence of answers
  is covered.
- Regex substitutions, code-page encoding and accent stripping are
  uninterpreted functions.
- The file system is given as the lists of paths that the updater's walks
  would see.

Modules:

| file | module | models |
|---|---|---|
| common.dfy | Common | `Option`, string prefixes, ASCII digit strings, Python's `int(str)` for ASCII |
| rpc.dfy | Rpc | `send_command` (split into `BeginSend` and `AwaitReply`), the receiver's response routing and failure handling |
| voice_params.dfy | VoiceParams | `PARAM_MAX`, `cmdProsody`, `getVParam`/`setVParam`, `set_voice`, `setVariant`, the batch commands |
| session.dfy | Session | the client state record: event dispatch, `stop()`, queueing a batch |
| synth_worker.dfy | SynthWorker | `_synth_worker_loop` |
| audio_worker.dfy | AudioWorker | `AudioWorker.run`, `stop`, `_make_on_done`, `_schedule_idle`, `_invoke_index_callback` |
| speech.dfy | Speech | speech sequences and `combine_adjacent_strings` |
| voices.dfy | Voices | the voice tables, `_resolve_voice_for_language`, `_update_voice_state`, `_set_voice`, `_set_variant` |
| preprocess.dfy | Preprocess | `preprocess`, `_resub`, `_normalize_text` |
| speak.dfy | Speak | `SynthDriver.speak`, `xspeakText`, the break pause factor |
| updater.dfy | Updater | `_is_newer`, `check_for_updates`, `analyze_changes`, `show_update_dialog`, `smart_merge` |

## Model

| member | source | states |
|---|---|---|
| Rpc.Start | _eloquence.py:168-192 | Starting the host marks it started and changes nothing else in the channel |
| Rpc.BeginSend | _eloquence.py:293-322 | Without a host, "Host not started" is raised and nothing changes. Otherwise a fresh id is drawn from the counter, and the id stays pending only when the caller waits and the write succeeded. A write that fails with any `OSError` (including a reset or broken connection) returns `{}`, and any other write failure raises; both unregister the id. With `wait=False`, `{}` is returned and nothing is registered |
| Rpc.AwaitReply | _eloquence.py:324-332 | A waiter never signalled times out: its id is unregistered and a timeout is raised. A signalled waiter consumes its stored response: it raises the response's error (or "no response received" when none was stored), and otherwise returns the payload |
| Rpc.Deliver | _eloquence.py:248-254 | A response is stored and its waiter signalled only when its id is pending, and the id is then unregistered. Any other response leaves the channel untouched |
| Rpc.FailAll | _eloquence.py:233-246 | On a failed read every pending id gets the error response and one signal, earlier responses are kept, and the pending table ends empty |
| Rpc.FailAllSignalsEachOnce | _eloquence.py:233-246 | Under the channel invariant, every waiter resolved by a failed read has been signalled exactly once in total |
| Rpc.InitialValid | _eloquence.py:150-166 | The fresh client (id counter at 1, empty tables) satisfies the channel invariant, before and after the host starts |
| Rpc.BeginSendValid | _eloquence.py:293-322 | Every send path keeps the channel invariant: pending ids increase, lie below the counter and are unsignalled; signalled ids were signalled once; stored responses belong to signalled ids |
| Rpc.AwaitReplyValid | _eloquence.py:324-332 | Waking up, whether signalled or timed out, keeps the channel invariant |
| Rpc.DeliverValid | _eloquence.py:248-254 | Routing a response keeps the channel invariant |
| Rpc.FailAllValid | _eloquence.py:233-246 | Resolving every waiter on a failed read keeps the channel invariant |
| Rpc.ReceiverRuns | _eloquence.py:226-258 | Any run of the receiver only ever removes pending ids, never adds one |
| Rpc.ReceiverRunsValid | _eloquence.py:226-258 | Any run of the receiver keeps the channel invariant |
| Rpc.SendCommandLeavesNoPendingEntry | _eloquence.py:293-332 | Whatever the receiver does while the caller waits, after `send_command` returns or raises the pending table holds nothing it did not hold before the call |
| VoiceParams.Clamp | _eloquence.py:395-403 | The clamped value lies in `[0, PARAM_MAX.get(pr, 100)]`, and it equals the input whenever the input already lies there |
| VoiceParams.Truncate | _eloquence.py:493 | `int()` of a real rounds toward zero: within one below a non-negative value, within one above a negative one |
| VoiceParams.SetVParam | _eloquence.py:561-569 | One `setVoiceParam` call is made. A temporary set, or a failed call, leaves `voice_params` unchanged. A permanent set stores the host's reported value, or the requested value when none is reported |
| VoiceParams.CmdProsody | _eloquence.py:483-496 | It makes exactly one call: a temporary set of the parameter to `int(base × multiplier + offset)` clamped to the parameter's range, with `base` the stored value. It never changes `voice_params` or `params` |
| VoiceParams.ProsodyValueMeaning | _eloquence.py:492-496 | For every input, the value sent is 0 when base × multiplier + offset is negative, the parameter's maximum from the maximum up, and its whole part in between |
| VoiceParams.ProsodyResetSendsBase | _eloquence.py:483-496 | The reset prosody command (multiplier 1, offset 0) sends the unchanged base value as a temporary set |
| VoiceParams.ProsodyInRangeIsExact | _eloquence.py:492-496 | When base × multiplier + offset is within range, the value sent is exactly its truncation |
| VoiceParams.TemporarySetLeavesBase | _eloquence.py:561-569 | After a permanent pitch of 80, a later temporary set of any value leaves the stored base at 80 |
| VoiceParams.RestoreCalls | _eloquence.py:536-546 | The restore loop sends exactly one permanent `setVoiceParam` per saved parameter, carrying the saved value |
| VoiceParams.SetVoice | _eloquence.py:520-553 | `voice_params` ends as it was before the call. If the switch raises, only the switch was sent. Otherwise the reported `params` are merged, the language code follows the voice, and the switch is followed by the restore loop's sends |
| VoiceParams.SetVoiceSends | _eloquence.py:530-546 | The voice switch is sent first. When it succeeds, exactly one permanent set per saved voice parameter follows, each carrying the saved value, and nothing else |
| VoiceParams.SetVariant | _eloquence.py:572-577 | One `copyVoice` call is made, and the reported voice parameters are merged into `voice_params` |
| VoiceParams.SetVoiceIgnoresReportedVoiceParams | _eloquence.py:520-577 | A host that reports a stuck temporary pitch changes the stored pitch after `setVariant`, but never after `set_voice` |
| VoiceParams.Execute | _eloquence.py:466-507 | Each batch command makes at least one host call. Text, index and synthesize make exactly their own call, and only a voice switch can change the parameter tables |
| Session.HandleEvent | _eloquence.py:260-274 | Audio is queued as a chunk tagged with the current batch epoch, `stopped` only clears the speaking flag, and other events change nothing |
| Session.Receive | _eloquence.py:247-258 | A response goes to the pending table (and is dropped when nobody waits), an event goes to the dispatcher, and other messages change nothing |
| Session.ReceiveFailed | _eloquence.py:233-246 | A closed connection stores "connectionClosed" and any other failure "receiverException" for every pending id; each is signalled, the table is cleared, and nothing else in the state changes |
| Session.Stop | _eloquence.py:276-290 | Without a host nothing happens. Otherwise the stop epoch rises by exactly one, the player is halted, `stop` is sent without registering a waiter, and the queues and batch epoch are left alone |
| Session.Enqueue | addon/synthDrivers/eloquence.py:853-854 | The batch is appended to the synthesis queue under the current stop epoch, and nothing else changes |
| Session.InitialValid | _eloquence.py:150-166 | The fresh client satisfies the state invariant: the channel invariant, and no epoch ahead of the stop epoch |
| Session.ReceiveValid | _eloquence.py:247-274 | Receiving a message keeps the state invariant |
| Session.HandleEventValid | _eloquence.py:260-274 | Dispatching an event keeps the state invariant: new audio carries the batch epoch, which never exceeds the stop epoch |
| Session.ReceiveFailedValid | _eloquence.py:233-246 | A failed read keeps the state invariant |
| Session.StopValid | _eloquence.py:276-290 | `stop()` keeps the state invariant |
| Session.EnqueueValid | addon/synthDrivers/eloquence.py:853-854 | Queueing a batch keeps the state invariant |
| Session.StopMakesQueuedWorkStale | _eloquence.py:276-290 | After a stop, every queued chunk and batch is older than the stop epoch, and so is the batch epoch |
| Session.StopsRaiseEpochByCount | _eloquence.py:276-279 | N stops with a host raise the epoch by exactly N and register no waiter |
| Session.StopsWithoutHostDoNothing | _eloquence.py:276-278 | Any number of stops without a host change nothing |
| SynthWorker.RunBatch | _eloquence.py:600-605 | Every command of a batch is attempted, in order, whatever earlier ones raised. A batch without a voice switch leaves the parameter tables unchanged |
| SynthWorker.RunBatchAppend | _eloquence.py:600-605 | Running two batches back to back is running their concatenation |
| SynthWorker.PlainBatchCalls | _eloquence.py:600-605 | A batch of text, index and synthesize commands makes exactly one host call per command, in batch order |
| SynthWorker.RunOnce | _eloquence.py:585-607 | An empty queue ends the loop only when a stop was requested, and `None` ends it. A stale batch is dropped whole with no host call. Any other batch becomes the current epoch and runs |
| SynthWorker.RunOnceValid | _eloquence.py:585-607 | A worker iteration keeps the state invariant |
| SynthWorker.StaleBatchesRunNothing | _eloquence.py:596-598 | Once every queued batch is stale, any number of iterations make no host call and leave the batch epoch alone |
| SynthWorker.StoppedUtteranceNeverSpeaks | _eloquence.py:276-290 | An utterance queued and then stopped before the worker reaches it never reaches the host, however long the worker runs |
| SynthWorker.LateAudioAfterStopIsStale | _eloquence.py:260-266 | Audio the host pushes after a stop, before a newer batch starts, is queued as stale |
| AudioWorker.InvokeIndexCallback | _eloquence.py:128-136 | A non-`None` value becomes `lastindex`, and the value is passed to the callback when one is installed |
| AudioWorker.ScheduleIdle | _eloquence.py:117-126 | While stopping, nothing happens. Otherwise the player goes idle (when there is one) and the callback hears `None` |
| AudioWorker.RunOnce | _eloquence.py:51-98 | Once the worker is no longer running the loop ends; an empty queue changes nothing; `None` ends the loop. A stale chunk is dropped silently. A fresh silent marker fires its index, then idle and `None` when final, and nothing while stopping. Fresh audio is fed to the player unless stopping |
| AudioWorker.PlaybackDone | _eloquence.py:105-126 | When a fed chunk finishes playing, its index is reported and becomes `lastindex`, even while stopping. A final chunk then idles the player (when there is one) and reports `None`, unless the worker is stopping. Nothing else changes |
| AudioWorker.PlaybackDoneMatchesMarker | _eloquence.py:65-115 | Outside a stop, a fed chunk's completion leaves exactly the state a silent marker with the same index and finality leaves when the worker takes it |
| AudioWorker.StopWorker | _eloquence.py:100-103 | Stopping sets the stopping flag, clears the running flag and queues `None` |
| AudioWorker.FinalMarkerGoesIdleOnce | _eloquence.py:65-72 | A fresh final silent marker idles the player once and tells the callback `None` once, and while stopping it does neither |
| AudioWorker.RunOnceValid | _eloquence.py:51-98 | An audio worker iteration keeps the state invariant |
| AudioWorker.StopWorkerValid | _eloquence.py:100-103 | Stopping the worker keeps the state invariant |
| AudioWorker.StaleAudioIsSilent | _eloquence.py:60-62 | Once every queued chunk is stale, any number of iterations touch neither the player nor the callback |
| Speech.CombineProperties | addon/synthDrivers/eloquence.py:720-733 | The result has no empty string and no two adjacent strings. Flattened into characters and items, it equals the input: nothing is lost, added or reordered |
| Speech.CombineFromKeepsAtoms | addon/synthDrivers/eloquence.py:723-733 | The loop emits the pending run of strings followed by the input, character for character and item for item |
| Speech.CombineFromCombined | addon/synthDrivers/eloquence.py:723-733 | The loop's output is combined, and it starts with a string only when the pending run or the input does |
| Speech.CombineIdempotent | addon/synthDrivers/eloquence.py:720-733 | Combining an already combined sequence gives it back unchanged |
| Voices.Normalize | addon/synthDrivers/eloquence.py:1026 | The normalised tag has the same length, is lower-cased, and has every `_` turned into `-` |
| Voices.Partition | addon/synthDrivers/eloquence.py:1030 | `partition("-")`: the head has no `-`, and head, `-` and tail give back the input when it has a `-` |
| Voices.ResolveVoice | addon/synthDrivers/eloquence.py:1023-1029 | An empty or missing language gives the default voice, and an exact tag match gives that voice |
| Voices.Fallback | addon/synthDrivers/eloquence.py:1030-1054 | Any voice it returns other than the default is a mapped voice with the requested primary subtag |
| Voices.ResolveKeepsLanguage | addon/synthDrivers/eloquence.py:1023-1054 | A non-empty language resolves either to nothing, to the default voice, or to a mapped voice of the same primary language |
| Voices.ResolveExactTag | addon/synthDrivers/eloquence.py:1025-1029 | Any spelling whose lower-cased, `_`-to-`-` form is a mapped tag resolves to that tag's voice, whatever the default |
| Voices.SpanishFallsBackToLatinAmerican | addon/synthDrivers/eloquence.py:1044-1049 | A Spanish tag with a region other than `es` and `419` resolves to the `es-419` voice, 131073, whatever the default |
| Voices.UnknownPrimaryResolvesToNothing | addon/synthDrivers/eloquence.py:1042-1043 | A primary subtag with no mapped voice resolves to nothing |
| Voices.TagsSplit | addon/synthDrivers/eloquence.py:78-107 | Every mapped tag splits into its voice's primary and region subtags |
| Voices.UpdateVoiceState | addon/synthDrivers/eloquence.py:1009-1021 | The current voice becomes the voice. The default follows it when asked to, or when there is none. The override is on exactly when not updating the default and the voice differs from the default. `params[9]` takes the voice when it parses as an integer |
| Voices.OverrideFollowsDefault | addon/synthDrivers/eloquence.py:1009-1021 | Switching away from the default turns the override on and keeps the default. Switching back, or switching as a new default, turns it off |
| Voices.SetDriverVoice | addon/synthDrivers/eloquence.py:1005-1007 | Setting the voice makes it the default and the current voice, clears the override, and keeps `voice_params` |
| Voices.SetDriverVariant | addon/synthDrivers/eloquence.py:1076-1080 | A value that is not an integer raises `ValueError`. Otherwise the variant is stored when it is a key 1..8 and `"1"` otherwise, the host gets `copyVoice` and then a permanent rate set with the driver's rate, and `params` is unchanged |
| Voices.VariantKeepsDriverRate | addon/synthDrivers/eloquence.py:1076-1080 | After a variant switch, the stored rate is the driver's rate, whatever the variant reported |
| Common.ParseIntToString | addon/synthDrivers/eloquence.py:1010-1014 | `int(str(n))` gives back `n` for every integer `n` |
| Preprocess.ResubTrace | addon/synthDrivers/_text_preprocessing.py:146-150 | Each substitution is applied once, to the previous one's result, in table order |
| Preprocess.ResubIsTraceEnd | addon/synthDrivers/_text_preprocessing.py:146-150 | `_resub` returns the end of that trace |
| Preprocess.ResubAppend | addon/synthDrivers/_text_preprocessing.py:146-150 | Applying two tables in turn is applying their concatenation |
| Preprocess.NormalizeChar | addon/synthDrivers/_text_preprocessing.py:133-142 | A character is kept through the code page when it round-trips, otherwise replaced by its accent-stripped form when that encodes, otherwise by `?` |
| Preprocess.NormalizeTextAppend | addon/synthDrivers/_text_preprocessing.py:132-143 | Normalisation maps each character on its own: it distributes over concatenation |
| Preprocess.UnencodableBecomesQuestionMark | addon/synthDrivers/_text_preprocessing.py:134-143 | A character that cannot be encoded even without its accents becomes exactly one `?`, and its neighbours are unaffected |
| Preprocess.PlanFor | addon/synthDrivers/_text_preprocessing.py:108-114 | Voices 65536, 65537, 393216 and 655360 get English only; Spanish and French ids get only their own table; 262144 gets German only; others get none. Normalisation is skipped exactly for 393216, 524288 and 655360 |
| Preprocess.PreprocessFollowsPlan | addon/synthDrivers/_text_preprocessing.py:156-170 | `preprocess` applies exactly the plan's tables and normalises exactly when the plan says so |
| Preprocess.JapaneseUnchanged | addon/synthDrivers/_text_preprocessing.py:168-170 | Text for voice 524288 is returned unchanged |
| Speak.Unquote | addon/synthDrivers/eloquence.py:859-860 | Without backquote tags, every backquote becomes a space and nothing else changes |
| Speak.XSpeakText | addon/synthDrivers/eloquence.py:857-887 | The text begins with the phrase-prediction tag and then the abbreviation tag. It always has a non-space character, so `rstrip()[-1]` on it never raises |
| Speak.LastNonSpace | addon/synthDrivers/eloquence.py:844 | `rstrip()[-1]` exists exactly when the text has a non-space character, and it is one |
| Speak.BreakFactorAsWrittenDrops | addon/synthDrivers/eloquence.py:772-785 | As written, the factor at rates 43, 60 and 75 falls back to 1, below its value one step lower |
| Speak.BreakFactorMonotone | addon/synthDrivers/eloquence.py:764-785 | The corrected factor matches the table at each measured rate, stays within 1..5, and never falls as the rate rises |
| Speak.BreakFactorAgreesOffKnots | addon/synthDrivers/eloquence.py:764-785 | The corrected factor equals the factor as written at every rate except 43, 60 and 75, and differs at those three |
| Speak.ChangeLanguage | addon/synthDrivers/eloquence.py:790-810 | An unresolved language changes nothing. The current voice only clears the override on a reset. Otherwise at most one voice switch is appended |
| Speak.Step | addon/synthDrivers/eloquence.py:749-828 | Strings and breaks mark the utterance as queued. An index item is recorded as pending and appended as an index command. No other item appends an index command, and every item only appends to the batch |
| Speak.StepAppends | addon/synthDrivers/eloquence.py:750-828 | A string appends its rewritten text and becomes the last text. A break appends its pause tag. A prosody item appends a command for its parameter. A language change is `ChangeLanguage`, and any other item changes nothing |
| Speak.BuildAll | addon/synthDrivers/eloquence.py:749-828 | The walk is queued exactly when the sequence holds a string or a break, its pending indexes are the sequence's index items in order, and it only appends to the batch |
| Speak.RunImmediately | addon/synthDrivers/eloquence.py:832-838 | The immediate path does exactly what the synthesis worker would do with the batch minus its index commands: every other command runs, in order. It never calls `insertIndex` |
| Speak.QueuedBatchShape | addon/synthDrivers/eloquence.py:741-855 | An utterance with something to speak is queued as one batch under the current stop epoch. The batch opens with the rate, pitch and volume resets and closes with index `0xFFFF` and `synth`. NVDA is told nothing yet and no host call is made |
| Speak.ImmediatePathNotifies | addon/synthDrivers/eloquence.py:829-842 | With nothing to speak, nothing is queued and no index reaches the host. NVDA hears each pending index in order, then done-speaking once |
| Speak.LoneIndexAdvancesAtOnce | addon/synthDrivers/eloquence.py:829-842 | A sequence holding only an index reports that index and then done-speaking at once |
| Speak.TextIsQueued | addon/synthDrivers/eloquence.py:747-755 | Any non-empty string in the input makes the utterance queued |
| Updater.IsNewerStrictOrder | addon/synthDrivers/_eloquence_updater.py:149-158 | `_is_newer` is irreflexive, never true both ways, transitive, and decides every pair with different digit runs |
| Updater.DigitRunsOfVersion | addon/synthDrivers/_eloquence_updater.py:152-153 | The digit runs of a dotted version are its numbers, in order |
| Updater.IsNewerOnVersions | addon/synthDrivers/_eloquence_updater.py:149-156 | For dotted versions, newer means lexicographically greater numbers, with a proper prefix being older |
| Updater.StripLeadingV | addon/synthDrivers/_eloquence_updater.py:126 | The result is the tag with its whole run of leading `v` removed, and it does not start with `v` |
| Updater.DownloadUrl | addon/synthDrivers/_eloquence_updater.py:129-138 | The first `.nvda-addon` asset's URL is used when it is non-empty; without such an asset the source zip's URL is used |
| Updater.CheckForUpdates | addon/synthDrivers/_eloquence_updater.py:126-143 | The latest version is the tag with its leading `v`s stripped, "0.0.0" when there is no tag. An update is claimed exactly when that version is newer than the installed one, and so never when the installed version is newer. The download URL is the one the assets give, and the changelog is the release body, defaulting to "No changelog provided." |
| Updater.TagPrefixIrrelevant | addon/synthDrivers/_eloquence_updater.py:126-142 | A tag `v` + t is never newer than t with its `v`s stripped |
| Updater.Classify | addon/synthDrivers/_eloquence_updater.py:242-265 | Each update file lands in exactly one of preserved, added and modified. Preserved files match a preserve prefix and exist; added files are missing; modified files exist and are not preserved |
| Updater.ClassifyPartition | addon/synthDrivers/_eloquence_updater.py:251-265 | Both directions, for each update file: it is preserved iff it matches a preserve prefix and exists, added iff it is missing, and modified iff it exists and is not preserved |
| Updater.DeletedAsWrittenMisreports | addon/synthDrivers/_eloquence_updater.py:269-291 | As written, a driver file that the update carries is still listed as deleted, under a folder-relative name |
| Updater.DriverModuleMisreported | addon/synthDrivers/_eloquence_updater.py:269-291 | As written, updating `synthDrivers\_eloquence.py` alone lists `_eloquence.py` as deleted |
| Updater.DeletedCorrectedExact | addon/synthDrivers/_eloquence_updater.py:268-291 | With the corrected walk, a path is deleted iff it is an installed driver file that is neither excluded nor preserved, and that is absent from the update |
| Updater.AnalyzeChanges | addon/synthDrivers/_eloquence_updater.py:226-294 | Update files are partitioned into added, modified and preserved. With the corrected deletion walk, every deleted path is installed, absent from the update, and not preserved |
| Updater.Assign | addon/synthDrivers/_eloquence_updater.py:79-85 | A dict assignment makes the key map to the value, keeps every other key's value and the keys unique. An existing key keeps its place and only its entry changes; a new key goes last |
| Updater.Decide | addon/synthDrivers/_eloquence_updater.py:76-87 | Cancel gives `(False, {})`. OK gives each listed file the action of the last list naming it, and no decision to any other file |
| Updater.DecisionsFollowChanges | addon/synthDrivers/_eloquence_updater.py:76-87 | After `analyze_changes`, OK maps every added file to add, every modified file to update and every deleted file to delete, and nothing else |
| Updater.ProgressMonotone | addon/synthDrivers/_eloquence_updater.py:298-329 | Progress stays within 0..100 and never goes backwards. With decisions, the last per-file report is already 100 |
| Updater.SmartMerge | addon/synthDrivers/_eloquence_updater.py:296-329 | No decisions report 100 once and apply nothing. Otherwise one report per decision is followed by a final 100. The operations are each decision's, in decision order. Every added or updated file is copied, and every existing file marked for deletion is removed. Nothing else is copied or removed |
| Updater.ApplyAllOps | addon/synthDrivers/_eloquence_updater.py:310-325 | The decisions give a copy for each addition and update and for nothing else, and a removal for each deletion of an existing file and for nothing else |

## Left out

- Speak.BreakText: it uses the corrected pause factor (`Speak.BreakFactor`), so at rates 43, 60 and 75 the pause tag carries the table's coefficient where the code uses 1. `Speak.BreakFactorAgreesOffKnots` shows that these three rates are the only difference.
- VoiceParams.CmdProsody: `base * multiplier + offset` is computed in exact reals, not IEEE doubles. Where a double rounds across an integer (base 5 times 0.6, base 100 times 0.29), the truncated value can differ by one from the code's.
- Updater.AnalyzeChanges: its deleted list comes from the corrected deletion walk (`Updater.DeletedCorrected`). The code's walk reports folder-relative names and is modelled separately as `Updater.DeletedAsWritten`.
- A response whose `"error"` key is present but `None` raises in `send_command`. `Reply.error` cannot represent it, so such a response is modelled as one without an error.
- A message without a `type`, or a response without an `id`, raises outside the receiver's `try` and ends the receiver thread. The receiver steps assume well-formed messages.
- Engine API calls are logged separately from the message channel. Each batch command and voice-parameter call takes its answer from `Host` and is recorded in `Engine.calls`, while in the code it goes through `send_command`. So these calls draw no id from `nextId` and write nothing to the channel. `Rpc.BeginSend` and `Rpc.AwaitReply` model one such send on its own.
- Launching the host process, the listener and socket I/O, `shutdown` and `initialize`. The connection is only `Rpc.Start` and a transport outcome per write; `initialize`'s merge of the first `params`/`voice_params` reply is not modelled.
- Thread timing, queue polling timeouts and locks. Each thread iteration is one atomic step, and the waiter's five-second timeout is the moment it wakes unsignalled.
- `_command_lock` is held across the wait for a reply, so two sends never overlap. The model still splits a send into two steps with receiver steps in between, which covers more interleavings than the code allows.
- The `nvwave` player. Feeding, halting and idling are recorded as operations on a log, and its exceptions are not modelled.
- `_ensure_synth_worker`, `_stop_synth_worker` and `process()`, which start and stop threads. The worker loops themselves are modelled, and `StopWorker` models the audio worker's stop.
- The wx settings panel and dialogs, `onCopyHelper`, `onCheckAddonUpdate`'s progress dialogs, and the dictionary download and merge in `onUpdate`. These are UI, file I/O and codec behaviour.
- HTTP, JSON decoding, zip extraction, file copying and `_get_current_version` in the updater. A release is given as its fields. A tag that is present but null is not modelled.
- The regex fix tables, `pause_re`, `time_re`, `mbcs` encoding and `_strip_accents`, which are uninterpreted functions. The text encoding inside `_eloquence.speak` is not modelled.
- VoiceParams.RestoreCalls: the restore loop runs over saved parameters in ascending id order, while the code uses dict insertion order. The contract states only which sends are made and with what values.
- Common.ParseInt: it parses ASCII digits with an optional sign. Surrounding whitespace, underscores and non-ASCII digits, which Python's `int()` also accepts, are not modelled.
- Voices.Normalize: it lower-cases ASCII letters only.
- Updater.DigitRuns: it reads ASCII digit runs only. `\d` also matches other Unicode digits.
- Speak.BreakText: it uses exact reals for the pause factor and its product with the break time, not floating point. The speech rate is given as the percentage NVDA's `_paramToPercent` computes, which is outside this model.
- Updater.Progress: it uses integer division where the code truncates a float quotient. The two agree for any realistic number of decisions.
- Speak.Speak: it requires the voice id `params[9]` to be present. The driver's constructor sets it before any speech, and `xspeakText` raises `KeyError` without it.
- File-system case-insensitivity, and directories among the walked paths, are not modelled. The walks list files, and the deletion walk's directory check is subsumed by its file check.
- `fetch_eci.py`, `buildVars.py` and `site_scons/site_tools/NVDATool/manifests.py`: downloads, constant data and template I/O, with no logic.

## Findings

| source | as written | input that shows it | evidently intended | confidence | as-written member | corrected member |
|---|---|---|---|---|---|---|
| addon/synthDrivers/eloquence.py:776-777 | At a rate that is one of the table's measured rates, the factor is `coefficients[ck[0]]`, the first coefficient (1) | rate 43: the factor is 1, while rate 42 gives 1 + 32/33, so a faster voice gets a shorter break | `coefficients[self.rate]`, the measured coefficient at that rate (2, 3 or 4) | medium, not executed | Speak.BreakFactorAsWrittenDrops | Speak.BreakFactorMonotone |
| addon/synthDrivers/_eloquence_updater.py:269-291 | The deletion walk runs over the driver folder, so its paths are relative to `synthDrivers`. It looks them up in the update tree relative to the add-on root, and reports them under those folder-relative names | installed and updated `synthDrivers\_eloquence.py`: `_eloquence.py` is listed as deleted although the update carries it | look each driver file up as `synthDrivers\` + path, and report that path | medium, not executed | Updater.DeletedAsWrittenMisreports | Updater.DeletedCorrectedExact |
