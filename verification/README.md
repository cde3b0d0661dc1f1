# Jarvis voice loop: endpoint detection and turn sequencing

This project models the two pieces of logic in the Jarvis voice assistant that
decide when something happens. All device and model I/O is taken out.

- **Endpoint detection** (`asr.py`, `AudioInput.listen`). The microphone
  stream is read in blocks of `RECORDING_BLOCK_SIZE` samples. A block whose
  RMS energy is above `SPEAKING_THRESHOLD` opens a listening session and fires
  the speech-start callback. While a session is active every block is
  buffered, and a loud block re-arms the single timer `listening_start_time`.
  The session ends when the time since the last loud block exceeds a timeout.
  The speech-end callback then receives the buffered blocks joined in order,
  and the detector goes back to idle.
- **Turn sequencing** (`main.py`, `on_speech_end`). Each utterance appends a
  fixed user turn `{"role": "user", "content": "[audio input]"}` and cuts the
  history to its last ten entries. The chat model is then asked for a reply
  on that history. A non-empty reply is spoken and appended as an assistant
  turn, again keeping the last ten. An empty reply is neither spoken nor
  recorded.

Modules:

- `AudioConfig` (`audio_config.dfy`): the numeric audio constants of
  `config.py`, and `Params`, the detector's threshold and two timeouts. Two
  detector properties are exceptions: the worked example
  `Endpoint.ReferenceScenario` is stated for the reference values only, and
  `Endpoint.InitialTimeoutMattersOtherwise` assumes the opposite order of the
  timeouts (initial timeout < silence timeout). Every other detector property
  holds for arbitrary parameters and assumes at most `NonNegativeTimeouts` or
  `SilenceFirst` (silence timeout ≤ initial timeout). The reference values
  satisfy both.
- `Endpoint` (`endpoint.dfy`): the detector.
  - `Step` is one loop iteration. It takes the block, its energy and one
    clock reading, and returns the new state and the events fired (`Start`,
    `End(utterance)`).
  - `Run` folds `Step` over a finite stream of blocks.
- `ChatHistory` (`chat_history.dfy`): turns, and the `[-10:]` cut
  (`Truncate`, `Append`).
- `Orchestrator` (`orchestrator.dfy`): the callbacks main.py hands to the
  loop, and `Listen`, the loop driving detector and callbacks together.
  - The chat model is an arbitrary function `Model` from a history to a
    reply string.
  - The calls made to the model and to the speech synthesizer are recorded
    in order, as a trace of `Effect`s (`Infer(prompt)`, `Speak(text)`).
- `SeqLemmas` (`seq_lemmas.dfy`): small facts about sequence concatenation
  and slicing that the proofs use.

Three details of the code shape the model:

- The block that opens a session is buffered in that same iteration.
  `asr.py:26` tests the flag that `asr.py:23` has just set.
- There is one timer, refreshed by every loud block (`asr.py:24`, `asr.py:29`).
  There is no separate "session start" time. So the initial-listening
  disjunct at `asr.py:33` compares the same elapsed time as the silence
  disjunct against 5 s instead of 1.5 s. It can never fire first
  (`Endpoint.InitialTimeoutSubsumed`).
- The timeout test is strict (`>`). With exact 0.1 s block times, nine loud
  blocks followed by quiet ones end on the 25th block, 1.6 s after the last
  loud block. The 24th block is exactly 1.5 s after it, which would end the
  session only under a `>=` test (`Endpoint.ReferenceScenario`).

## Model

| member | source | states |
|---|---|---|
| Endpoint.StepProperties | asr.py:18-40 | One iteration (`Endpoint.Step`) keeps the detector invariant: the timer is set exactly while active, an active detector holds a non-empty buffer, and an idle one an empty buffer. It fires Start iff the detector was idle and the block is loud. After an End it is back in the initial state. Otherwise, if the detector was active or the block is loud, the block is appended to the tail of the previous buffer, or of an empty one when the session just opened. |
| Endpoint.RunKeepsInv | asr.py:11-16 | Starting from a state that keeps the invariant, the loop (`Endpoint.Run`) keeps it after any finite stream. |
| Endpoint.IdleQuietBlock | asr.py:18-19 | From idle, a block at or below the threshold leaves the state unchanged and fires nothing. |
| Endpoint.IdleLoudBlock | asr.py:18-27 | From idle, a loud block fires exactly one Start. The session becomes active, the timer is set to the block's time, and the buffer is exactly that block. |
| Endpoint.ActiveNeverStarts | asr.py:18-23 | An active detector never fires Start. |
| Endpoint.LoudNeverEnds | asr.py:26-34 | While active, a loud block is appended and re-arms the timer to the current time. The elapsed time is then 0, which exceeds neither timeout, so no event fires. |
| Endpoint.InitialTimeoutSubsumed | asr.py:31-34 | When the silence timeout is at most the initial-listening timeout (1.5 ≤ 5 in config.py), the end test holds iff the time on the single timer exceeds the silence timeout. |
| Endpoint.InitialTimeoutMattersOtherwise | asr.py:31-34 | The subsumption needs that order: with a shorter initial timeout, the second disjunct fires where the silence test does not. |
| Endpoint.EndIffSilence | asr.py:28-34 | In an active session, a block ends it iff the block is quiet and its time minus the last loud time exceeds the silence timeout. |
| Endpoint.EndDeliversBuffer | asr.py:35-40 | An ending block fires one End. It carries the buffered blocks plus this one, joined in order. The session already holds at least one block, so the utterance has at least the samples of the opening block plus those of the ending block (two full blocks of `RECORDING_BLOCK_SIZE` samples in the source). The detector returns to idle with an empty buffer and no timer. |
| Endpoint.QuietStreamIsSilent | asr.py:11-19 | An idle detector fed only quiet blocks fires nothing and stays as it was, whatever the stream's length. |
| Endpoint.LoudStreamKeepsListening | asr.py:26-29 | An active session fed loud blocks buffers each of them in order, keeps the timer at the last block's time, and fires nothing. |
| Endpoint.LoudStreamStartsOnce | asr.py:18-29 | A run of consecutive loud blocks from idle fires exactly one Start. The buffer holds all those blocks and the timer holds the last block's time. |
| Endpoint.QuietWithinTimeoutKeepsListening | asr.py:26-34 | Quiet blocks that arrive within the silence timeout of the last loud block are buffered, leave the timer alone, and fire nothing. |
| Endpoint.SpeechThenSilence | asr.py:16-40 | Loud blocks, then quiet ones within the timeout, then one quiet block past it: the stream fires exactly Start then End. The End carries every block of the stream, in order, and the detector is idle again. |
| Endpoint.RunAlternates | asr.py:18-40 | Over any stream, the events alternate Start, End, Start, … (starting with End only if a session was already open). Whether a session is open afterwards follows from the parity of the event count. |
| Endpoint.RunConservesAudio | asr.py:25-40 | No captured block is lost or duplicated. The audio of all End events, followed by what is still buffered, equals the initial buffer followed by every block received while active or opening a session, in arrival order. |
| Endpoint.ConcatUniformLength | asr.py:35 | Joining blocks of one fixed size gives the size times the number of blocks. |
| Endpoint.ReferenceScenario | config.py:13-16 | Take 25 blocks of 1600 samples timed 0.1 s apart, nine above the reference threshold and then sixteen below it. Under the reference settings the session is still open after 24 blocks with a single Start, and ends on the 25th. The utterance is all 25 blocks, 25 × 1600 samples. |
| ChatHistory.Truncate | main.py:23 | The `[-10:]` cut keeps min(n, 10) turns, and they are the last ones of the history, in order. |
| ChatHistory.AppendKeepsLastTen | main.py:22-23 | After an append-and-cut the history is non-empty and at most ten long, with length min(n + 1, 10). It ends with the new turn, preceded by the most recent previous turns in order. |
| ChatHistory.AppendAllKeepsMostRecent | main.py:22-29 | Any number of append-and-cuts leaves exactly the last (at most ten) turns appended, in append order: the same as one cut at the end. |
| Orchestrator.OnSpeechEnd | main.py:20-33 | The speech-end callback leaves at most ten turns, and its first external call is the inference. |
| Orchestrator.SpeechEndAsksOnce | main.py:22-24 | The model is asked exactly once, on the previous history plus the user turn cut to ten. That prompt ends with the user turn, preceded by the most recent previous turns. |
| Orchestrator.SpeechEndEmptyReply | main.py:26-32 | On an empty reply nothing is spoken and no assistant turn is added. The history is the prompt, of length min(n + 1, 10). |
| Orchestrator.SpeechEndReply | main.py:26-29 | On a non-empty reply, speech is synthesized exactly once, with the reply, after the inference. The history has length min(n + 2, 10) and ends with the user turn followed by the assistant turn carrying the reply. |
| Orchestrator.SpeechEndTranscript | main.py:20-33 | Whatever the reply, the new history is the last ten turns of (the old history followed by the turns the calls stand for). Only user turns and non-empty assistant turns are added. |
| Orchestrator.OnEventKeepsTranscript | main.py:17-33 | For one event and a history within the cap, the callbacks keep the history bounded and transcript-shaped. The model is called once for an End and never for a Start. The speech-start callback changes nothing. |
| Orchestrator.MainCallbacksKeepTranscript | main.py:17-33 | For every history within the cap and every event, both callbacks keep the history bounded and transcript-shaped. The model is called once per End and never on Start. The speech-start callback changes nothing. |
| Orchestrator.DeliverKeepsTranscript | main.py:17-33 | Delivering any sequence of events to main.py's callbacks, from a history within the cap, makes exactly one model call per End event. The history stays the last ten turns of (the starting history followed by the turns the calls stand for), and stays well-formed. |
| Orchestrator.ListenIsRunThenHandle | asr.py:15-37 | `Orchestrator.Listen` models the loop wiring detector and callbacks. Handling each block's events before reading the next, as `Listen` does, gives the same history and calls as running the detector over the whole stream and then handling all its events. |
| Orchestrator.ListenKeepsHistory | main.py:15-35 | From a fresh start, over any stream, the history is the last ten turns of the recorded conversation. It holds at most ten turns, each either the fixed user turn or a non-empty assistant turn, and never a system turn. The model was called once per End the detector fired, and the detector keeps its invariant. |
| Orchestrator.QuietStreamCallsNothing | main.py:35 | A fresh program fed only quiet blocks makes no call and records no turn. |

## Left out

- RMS energy (`asr.py:17`): computed in floating point by numpy. Each block's energy is an input of `Reading`.
- Stream I/O (`asr.py:14-16`): opening the sounddevice stream with its sample rate, `CHANNELS = 1` and dtype, reading blocks and the `overflowed` flag. A stream is a finite sequence of readings.
- Clock reads (`asr.py:24`, `asr.py:29-30`): the source reads `stream.time` up to three times per iteration. The model takes one reading per block, so all three agree. Times and energies are exact reals, so float rounding of the differences is not modelled.
- Console output: every `print`, including the duration message at the start of `on_speech_end`. It has no effect on state.
- The endless `while True` loop and the `KeyboardInterrupt` shutdown: only finite streams are modelled.
- The chat model (`gemma_llm.py`): it is an arbitrary function from the history to a reply. The `max_tokens=100` argument and the llama.cpp wrapper are not part of this model.
- Speech output (`tts.py`): synthesis and playback are recorded only as a `Speak` effect.
- Failures and sampling of the chat model and speech output (`main.py:24`, `main.py:27`): the model assumes both calls return. In the program an exception from either escapes `on_speech_end`, `listen` and `main` (`main.py:38-41` catches only `KeyboardInterrupt`) and ends it; if `speak` raises, the assistant turn of `main.py:28` is never appended. llama.cpp samples its replies, so one history can get different replies, while `Model` gives one reply per history. All proved properties hold per call whatever the reply, so they are unaffected.
- `jarvis/main.py`: a stale variant of the wiring that calls a method the model wrapper does not define. It is not part of this model.
- The rest of `config.py`: torch device and dtype selection, model paths, voice paths and `BUFFER_DURATION` (unused by the core).
- The utterance audio itself is not passed on by `on_speech_end` (only a fixed text turn is). Its only use is the length printed to the console.
- Within one iteration, the source calls `on_speech_start` before buffering and `on_speech_end` before clearing the buffer. The callbacks never touch the detector's variables, so the model fires events after the state update. `Orchestrator.ListenIsRunThenHandle` shows that handling them per block or afterwards is the same.
