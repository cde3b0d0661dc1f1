/** Turn sequencing of main.py: the callbacks handed to the listening loop,
    and the loop itself driving the detector and the callbacks block by
    block. The chat model is an opaque function from a history to a reply;
    the calls made to it and to the speech synthesizer are recorded as a
    trace of effects. */
module Orchestrator {
  import opened AudioConfig
  import opened Endpoint
  import opened ChatHistory
  import opened SeqLemmas

  /** The chat model: maps the history it is shown to a reply. */
  type Model = seq<Turn> -> string

  /** The external calls a turn makes, in the order it makes them: one
      inference on a history, and possibly one spoken reply. */
  datatype Effect = Infer(prompt: seq<Turn>) | Speak(text: string)

  /** The history after a callback, and the calls it made. */
  datatype Outcome = Outcome(history: seq<Turn>, effects: seq<Effect>)

  /** The turn recorded for every utterance; the audio itself is not shown
      to the model. */
  const UserTurn: Turn := Turn("user", "[audio input]")

  function AssistantTurn(reply: string): Turn {
    Turn("assistant", reply)
  }

  /** The only turns the history ever holds: the fixed user turn, or an
      assistant turn with a non-empty reply. In particular no system turn. */
  predicate WellFormedTurn(t: Turn) {
    t == UserTurn || (t.role == "assistant" && t.content != "")
  }

  predicate WellFormedHistory(h: seq<Turn>) {
    forall i | 0 <= i < |h| :: WellFormedTurn(h[i])
  }

  /** The conversation a trace of effects stands for, independently of any
      truncation: one user turn per inference, one assistant turn per spoken
      reply, in trace order. */
  function TurnsOf(effects: seq<Effect>): seq<Turn>
  {
    if effects == [] then []
    else
      (match effects[0]
       case Infer(_) => [UserTurn]
       case Speak(text) => [AssistantTurn(text)])
      + TurnsOf(effects[1..])
  }

  function CountInfers(effects: seq<Effect>): nat
  {
    if effects == [] then 0 else (if effects[0].Infer? then 1 else 0) + CountInfers(effects[1..])
  }

  function CountEnds(evs: seq<Event>): nat
  {
    if evs == [] then 0 else (if evs[0].End? then 1 else 0) + CountEnds(evs[1..])
  }

  /** The speech-end callback: record the user turn, ask the model on the
      truncated history, and if the reply is non-empty speak it, then record
      it. */
  function OnSpeechEnd(model: Model, h: seq<Turn>): (res: Outcome)
    ensures |res.history| <= Capacity
    ensures |res.effects| > 0 && res.effects[0].Infer?
  {
    var prompt := Append(h, UserTurn);
    var reply := model(prompt);
    if reply != "" then
      Outcome(Append(prompt, AssistantTurn(reply)), [Infer(prompt), Speak(reply)])
    else
      Outcome(prompt, [Infer(prompt)])
  }

  /** The model is asked exactly once per utterance, on the previous history
      with the user turn appended and cut to ten: that history ends with the
      user turn, preceded by the most recent previous turns in order. */
  lemma SpeechEndAsksOnce(model: Model, h: seq<Turn>)
    ensures var res := OnSpeechEnd(model, h);
            && res.effects[0] == Infer(Append(h, UserTurn))
            && CountInfers(res.effects) == 1
    ensures var prompt := Append(h, UserTurn);
            && |prompt| == (if |h| < Capacity then |h| + 1 else Capacity)
            && prompt[|prompt| - 1] == UserTurn
            && prompt[..|prompt| - 1] == h[|h| - (|prompt| - 1)..]
  {
    AppendKeepsLastTen(h, UserTurn);
    var prompt := Append(h, UserTurn);
    var reply := model(prompt);
    CountInfersOfCall(prompt, reply);
    if reply != "" {
      assert OnSpeechEnd(model, h).effects == [Infer(prompt), Speak(reply)];
    } else {
      assert OnSpeechEnd(model, h).effects == [Infer(prompt)];
    }
  }

  lemma CountInfersOfCall(prompt: seq<Turn>, reply: string)
    ensures CountInfers([Infer(prompt)]) == 1
    ensures CountInfers([Infer(prompt), Speak(reply)]) == 1
  {
    assert [Infer(prompt)][1..] == [];
    assert [Speak(reply)][1..] == [];
    assert CountInfers([Speak(reply)]) == 0;
    assert [Infer(prompt), Speak(reply)][1..] == [Speak(reply)];
  }

  /** An empty reply is neither spoken nor recorded: the only call is the
      inference, and the history is the one the model was shown, one turn
      longer than before up to the cap. */
  lemma SpeechEndEmptyReply(model: Model, h: seq<Turn>)
    requires model(Append(h, UserTurn)) == ""
    ensures var res := OnSpeechEnd(model, h);
            && res.effects == [Infer(Append(h, UserTurn))]
            && res.history == Append(h, UserTurn)
            && |res.history| == (if |h| < Capacity then |h| + 1 else Capacity)
  {
    AppendKeepsLastTen(h, UserTurn);
  }

  /** A non-empty reply is spoken exactly once, after the inference, and the
      history then ends with the user turn followed by the assistant turn
      carrying the reply. */
  lemma SpeechEndReply(model: Model, h: seq<Turn>)
    requires model(Append(h, UserTurn)) != ""
    ensures var res := OnSpeechEnd(model, h);
            var prompt := Append(h, UserTurn);
            var reply := model(prompt);
            && res.effects == [Infer(prompt), Speak(reply)]
            && |res.history| == (if |h| + 1 < Capacity then |h| + 2 else Capacity)
            && res.history[|res.history| - 2..] == [UserTurn, AssistantTurn(reply)]
  {
    var prompt := Append(h, UserTurn);
    AppendTwice(h, UserTurn, AssistantTurn(model(prompt)));
  }

  /** Whatever the reply, the history after an utterance is the last ten
      turns of the previous history followed by the turns the calls stand
      for, and only well-formed turns are added. */
  lemma SpeechEndTranscript(model: Model, h: seq<Turn>)
    ensures var res := OnSpeechEnd(model, h);
            && res.history == Truncate(h + TurnsOf(res.effects))
            && (WellFormedHistory(h) ==> WellFormedHistory(res.history))
  {
    var prompt := Append(h, UserTurn);
    var reply := model(prompt);
    AppendKeepsWellFormed(h, UserTurn);
    if reply != "" {
      AppendKeepsWellFormed(prompt, AssistantTurn(reply));
      TurnsOfReply(prompt, reply);
      AppendTwice(h, UserTurn, AssistantTurn(reply));
    } else {
      assert TurnsOf([Infer(prompt)]) == [UserTurn];
    }
  }

  lemma AppendKeepsWellFormed(h: seq<Turn>, t: Turn)
    ensures WellFormedHistory(h) && WellFormedTurn(t) ==> WellFormedHistory(Append(h, t))
  {
    var r := Append(h, t);
    AppendKeepsLastTen(h, t);
    if WellFormedHistory(h) && WellFormedTurn(t) {
      forall i | 0 <= i < |r|
        ensures WellFormedTurn(r[i])
      {
        if i < |r| - 1 {
          assert r[i] == r[..|r| - 1][i] == h[|h| - (|r| - 1) + i];
        }
      }
    }
  }

  lemma TurnsOfReply(prompt: seq<Turn>, reply: string)
    ensures TurnsOf([Infer(prompt), Speak(reply)]) == [UserTurn, AssistantTurn(reply)]
  {
    assert [Speak(reply)][1..] == [];
    assert TurnsOf([Speak(reply)]) == [AssistantTurn(reply)];
    assert [Infer(prompt), Speak(reply)][1..] == [Speak(reply)];
  }

  /** Two appends, each truncated, keep what one truncation of both would. */
  lemma AppendTwice(h: seq<Turn>, u: Turn, a: Turn)
    ensures Append(Append(h, u), a) == Truncate(h + [u, a])
    ensures var r := Append(Append(h, u), a);
            |r| >= 2 && r[|r| - 2..] == [u, a]
  {
    var s := h + [u, a];
    assert Append(Append(h, u), a) == Truncate(s) by {
      TruncateAbsorbs(h + [u], [a]);
      SeqAssoc(h, [u], [a]);
      assert [u] + [a] == [u, a];
    }
    var r := Truncate(s);
    var k := |s| - |r|;
    assert r[|r| - 2..] == [u, a] by {
      assert |r| >= 2;
      assert r[|r| - 2] == s[k + |r| - 2] == u;
      assert r[|r| - 1] == s[k + |r| - 1] == a;
    }
  }

  /** One detector event delivered to its callback. The speech-start callback
      does nothing. */
  function OnEvent(model: Model, h: seq<Turn>, e: Event): Outcome
  {
    match e
    case Start => Outcome(h, [])
    case End(_) => OnSpeechEnd(model, h)
  }

  /** A pair of callbacks as the listening loop sees them: given the history
      they close over and an event, the new history and the calls made. */
  type Callbacks = (seq<Turn>, Event) -> Outcome

  /** The callbacks main.py hands to the listening loop. */
  function MainCallbacks(model: Model): Callbacks {
    (h: seq<Turn>, e: Event) => OnEvent(model, h, e)
  }

  /** The events of a stream delivered to the callbacks, in order. */
  function Deliver(cb: Callbacks, h: seq<Turn>, evs: seq<Event>): Outcome
    decreases |evs|
  {
    if evs == [] then Outcome(h, [])
    else
      var first := cb(h, evs[0]);
      var rest := Deliver(cb, first.history, evs[1..]);
      Outcome(rest.history, first.effects + rest.effects)
  }

  // ---------------------------------------------------------------------
  // Properties of the callbacks

  lemma {:induction false} TurnsOfAppend(a: seq<Effect>, b: seq<Effect>)
    ensures TurnsOf(a + b) == TurnsOf(a) + TurnsOf(b)
    decreases |a|
  {
    if a == [] {
      EmptyLeft(b);
    } else {
      assert (a + b)[0] == a[0];
      assert (a + b)[1..] == a[1..] + b;
      TurnsOfAppend(a[1..], b);
    }
  }

  lemma {:induction false} CountInfersAppend(a: seq<Effect>, b: seq<Effect>)
    ensures CountInfers(a + b) == CountInfers(a) + CountInfers(b)
    decreases |a|
  {
    if a == [] {
      EmptyLeft(b);
    } else {
      assert (a + b)[0] == a[0];
      assert (a + b)[1..] == a[1..] + b;
      CountInfersAppend(a[1..], b);
    }
  }

  lemma TranscriptStep(h: seq<Turn>, e1: seq<Effect>, h1: seq<Turn>, e2: seq<Effect>, h2: seq<Turn>)
    requires h1 == Truncate(h + TurnsOf(e1))
    requires h2 == Truncate(h1 + TurnsOf(e2))
    ensures h2 == Truncate(h + TurnsOf(e1 + e2))
  {
    TruncateAbsorbs(h + TurnsOf(e1), TurnsOf(e2));
    TurnsOfAppend(e1, e2);
    SeqAssoc(h, TurnsOf(e1), TurnsOf(e2));
  }

  /** What one callback invocation must keep: the history stays bounded and
      equal to the last ten turns of the previous history followed by the
      turns the calls stand for; the model is called once for an End event
      and never for a Start; well-formed histories stay well-formed. The
      speech-start callback leaves everything as it was. */
  ghost predicate KeepsTranscript(h: seq<Turn>, e: Event, o: Outcome) {
    && (e.Start? ==> o == Outcome(h, []))
    && |o.history| <= Capacity
    && o.history == Truncate(h + TurnsOf(o.effects))
    && CountInfers(o.effects) == (if e.End? then 1 else 0)
    && (WellFormedHistory(h) ==> WellFormedHistory(o.history))
  }

  ghost predicate CallbacksKeepTranscript(cb: Callbacks) {
    forall h: seq<Turn>, e: Event | |h| <= Capacity :: KeepsTranscript(h, e, cb(h, e))
  }

  /** Both callbacks of main.py keep the transcript, for one event. */
  lemma OnEventKeepsTranscript(model: Model, h: seq<Turn>, e: Event)
    requires |h| <= Capacity
    ensures KeepsTranscript(h, e, OnEvent(model, h, e))
  {
    if e.End? {
      SpeechEndAsksOnce(model, h);
      SpeechEndTranscript(model, h);
    } else {
      assert TurnsOf([]) == [];
      EmptyRight(h);
    }
  }

  /** Both callbacks of main.py keep the transcript, for every history within
      the cap and every event. */
  lemma MainCallbacksKeepTranscript(model: Model)
    ensures CallbacksKeepTranscript(MainCallbacks(model))
  {
    forall h: seq<Turn>, e: Event | |h| <= Capacity
      ensures KeepsTranscript(h, e, MainCallbacks(model)(h, e))
    {
      OnEventKeepsTranscript(model, h, e);
    }
  }

  /** What handling a sequence of events from history h keeps: the history
      stays bounded and equal to the last ten turns of the previous history
      followed by the turns the calls stand for, the model is called once per
      End event, and well-formed histories stay well-formed. */
  ghost predicate Transcribed(h: seq<Turn>, evs: seq<Event>, o: Outcome) {
    && |o.history| <= Capacity
    && o.history == Truncate(h + TurnsOf(o.effects))
    && CountInfers(o.effects) == CountEnds(evs)
    && (WellFormedHistory(h) ==> WellFormedHistory(o.history))
  }

  /** One event handled, then the rest: the two transcripts compose. */
  lemma TranscribedCons(h: seq<Turn>, evs: seq<Event>, first: Outcome, rest: Outcome)
    requires evs != []
    requires KeepsTranscript(h, evs[0], first)
    requires Transcribed(first.history, evs[1..], rest)
    ensures Transcribed(h, evs, Outcome(rest.history, first.effects + rest.effects))
  {
    TranscriptStep(h, first.effects, first.history, rest.effects, rest.history);
    CountInfersAppend(first.effects, rest.effects);
  }

  lemma DeliverNilTranscribed(cb: Callbacks, h: seq<Turn>)
    requires |h| <= Capacity
    ensures Transcribed(h, [], Deliver(cb, h, []))
  {
    var o := Deliver(cb, h, []);
    assert o == Outcome(h, []);
    assert TurnsOf(o.effects) == [];
    EmptyRight(h);
    assert Truncate(h) == h;
  }

  /** The first event handled, and the rest transcribed: all of them are. */
  lemma DeliverConsTranscribed(cb: Callbacks, h: seq<Turn>, evs: seq<Event>)
    requires evs != []
    requires KeepsTranscript(h, evs[0], cb(h, evs[0]))
    requires Transcribed(cb(h, evs[0]).history, evs[1..], Deliver(cb, cb(h, evs[0]).history, evs[1..]))
    ensures Transcribed(h, evs, Deliver(cb, h, evs))
  {
    var first := cb(h, evs[0]);
    var rest := Deliver(cb, first.history, evs[1..]);
    assert Deliver(cb, h, evs) == Outcome(rest.history, first.effects + rest.effects);
    TranscribedCons(h, evs, first, rest);
  }

  /** Delivering a stream's events to main.py's callbacks keeps the history
      bounded and made of well-formed turns, makes exactly one model call per
      End event, and leaves the history equal to the last ten turns of the
      conversation the calls stand for. */
  lemma {:induction false} DeliverKeepsTranscript(model: Model, h: seq<Turn>, evs: seq<Event>)
    requires |h| <= Capacity
    ensures Transcribed(h, evs, Deliver(MainCallbacks(model), h, evs))
    decreases |evs|
  {
    var cb := MainCallbacks(model);
    if evs == [] {
      DeliverNilTranscribed(cb, h);
    } else {
      var first := cb(h, evs[0]);
      assert KeepsTranscript(h, evs[0], first) by {
        assert first == OnEvent(model, h, evs[0]);
        OnEventKeepsTranscript(model, h, evs[0]);
      }
      DeliverKeepsTranscript(model, first.history, evs[1..]);
      DeliverConsTranscribed(cb, h, evs);
    }
  }

  lemma {:induction false} DeliverAppend(cb: Callbacks, h: seq<Turn>, a: seq<Event>, b: seq<Event>)
    ensures var oa := Deliver(cb, h, a);
            var ob := Deliver(cb, oa.history, b);
            Deliver(cb, h, a + b) == Outcome(ob.history, oa.effects + ob.effects)
    decreases |a|
  {
    if a == [] {
      EmptyLeft(b);
    } else {
      var first := cb(h, a[0]);
      assert (a + b)[0] == a[0];
      assert (a + b)[1..] == a[1..] + b;
      DeliverAppend(cb, first.history, a[1..], b);
      var oa' := Deliver(cb, first.history, a[1..]);
      var ob := Deliver(cb, oa'.history, b);
      assert first.effects + (oa'.effects + ob.effects) == (first.effects + oa'.effects) + ob.effects;
    }
  }

  // ---------------------------------------------------------------------
  // The listening loop with its callbacks

  /** Everything the program carries while it runs: the detector's variables,
      the chat history, and the external calls made so far. */
  datatype Session = Session(detector: Detector, history: seq<Turn>, trace: seq<Effect>)

  /** The state when the loop starts: idle detector, empty history. */
  const Fresh: Session := Session(Init, [], [])

  /** The program over a finite stream of blocks: each block goes through the
      detector, and the events it fires go to their callbacks before the next
      block is read. */
  function Listen(p: Params, model: Model, s: Session, rs: seq<Reading>): Session
    decreases |rs|
  {
    if rs == [] then s
    else
      var st := Step(p, s.detector, rs[0]);
      var o := Deliver(MainCallbacks(model), s.history, st.events);
      Listen(p, model, Session(st.next, o.history, s.trace + o.effects), rs[1..])
  }

  /** Handling each block's events right away is the same as running the
      detector over the whole stream and then handling all its events. */
  lemma {:induction false} ListenIsRunThenHandle(p: Params, model: Model, s: Session, rs: seq<Reading>)
    ensures var r := Run(p, s.detector, rs);
            var o := Deliver(MainCallbacks(model), s.history, r.events);
            Listen(p, model, s, rs) == Session(r.next, o.history, s.trace + o.effects)
    decreases |rs|
  {
    if rs == [] {
      EmptyRight(s.trace);
    } else {
      var cb := MainCallbacks(model);
      var st := Step(p, s.detector, rs[0]);
      var o1 := Deliver(cb, s.history, st.events);
      var s1 := Session(st.next, o1.history, s.trace + o1.effects);
      var r1 := Run(p, st.next, rs[1..]);
      var o2 := Deliver(cb, o1.history, r1.events);
      assert Listen(p, model, s, rs) == Listen(p, model, s1, rs[1..]);
      ListenIsRunThenHandle(p, model, s1, rs[1..]);
      assert Run(p, s.detector, rs) == StepResult(r1.next, st.events + r1.events);
      DeliverAppend(cb, s.history, st.events, r1.events);
      SeqAssoc(s.trace, o1.effects, o2.effects);
    }
  }

  /** From a fresh start, over any stream: the history is the last ten turns
      of the conversation the trace stands for, holds at most ten well-formed
      user and assistant turns, the model was called once per End event the
      detector fired, and the detector keeps its invariant. */
  lemma ListenKeepsHistory(p: Params, model: Model, rs: seq<Reading>)
    ensures var s := Listen(p, model, Fresh, rs);
            && s.history == Truncate(TurnsOf(s.trace))
            && |s.history| <= Capacity
            && WellFormedHistory(s.history)
            && CountInfers(s.trace) == CountEnds(Run(p, Init, rs).events)
            && Inv(s.detector)
  {
    var r := Run(p, Init, rs);
    var o := Deliver(MainCallbacks(model), [], r.events);
    var s := Listen(p, model, Fresh, rs);
    ListenIsRunThenHandle(p, model, Fresh, rs);
    assert Fresh.trace == [];
    EmptyLeft(o.effects);
    assert s.detector == r.next && s.history == o.history && s.trace == o.effects;
    RunKeepsInv(p, Init, rs);
    HandleFromEmpty(model, r.events);
  }

  /** The events of a stream handled from an empty history. */
  lemma HandleFromEmpty(model: Model, evs: seq<Event>)
    ensures var o := Deliver(MainCallbacks(model), [], evs);
            && o.history == Truncate(TurnsOf(o.effects))
            && |o.history| <= Capacity
            && WellFormedHistory(o.history)
            && CountInfers(o.effects) == CountEnds(evs)
  {
    DeliverKeepsTranscript(model, [], evs);
    var o := Deliver(MainCallbacks(model), [], evs);
    EmptyLeft(TurnsOf(o.effects));
  }

  /** A stream of quiet blocks from a fresh start calls nothing and records
      nothing. */
  lemma QuietStreamCallsNothing(p: Params, model: Model, rs: seq<Reading>)
    requires AllQuiet(p, rs)
    ensures Listen(p, model, Fresh, rs) == Fresh
  {
    ListenIsRunThenHandle(p, model, Fresh, rs);
    QuietStreamIsSilent(p, Init, rs);
  }
}
