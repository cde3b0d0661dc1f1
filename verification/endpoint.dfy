/** Energy-based endpoint detection: the body of the listening loop of
    AudioInput.listen as a pure transition function over one block, and the
    fold of that function over a finite stream of blocks. */
module Endpoint {
  import opened AudioConfig
  import opened SeqLemmas

  /** One sample of the capture stream (float32 in [-1, 1] on the device). */
  type Sample = real

  /** One block read from the stream. */
  type Frame = seq<Sample>

  datatype Option<T> = None | Some(value: T)

  /** What the loop knows about one block: its samples, their RMS energy, and
      the stream clock read while handling it (seconds). */
  datatype Reading = Reading(frame: Frame, energy: real, now: real)

  /** The two callbacks the loop may fire for a block. */
  datatype Event = Start | End(utterance: seq<Sample>)

  /** The variables carried across loop iterations: the buffered blocks, the
      single timer, and whether a listening session is active. */
  datatype Detector = Detector(buffer: seq<Frame>, timer: Option<real>, active: bool)

  datatype StepResult = StepResult(next: Detector, events: seq<Event>)

  /** The values the three variables have before the first block. */
  const Init: Detector := Detector([], None, false)

  /** The detector's invariant: the timer is set exactly while a session is
      active, an active session holds at least one block, an idle detector
      holds none. */
  predicate Inv(d: Detector) {
    && (d.timer.None? <==> !d.active)
    && (d.active ==> |d.buffer| > 0)
    && (!d.active ==> d.buffer == [])
  }

  predicate Loud(p: Params, r: Reading) {
    r.energy > p.threshold
  }

  /** The end-of-speech test with both of its disjuncts, measured on the one
      timer that loud blocks refresh. */
  predicate EndCondition(p: Params, timer: real, now: real, buffered: nat) {
    || now - timer > p.silenceTimeout
    || (now - timer > p.initialTimeout && buffered > 0)
  }

  /** Joins blocks end to end, in order, into one sample buffer. */
  function Concat(frames: seq<Frame>): seq<Sample>
  {
    if frames == [] then [] else frames[0] + Concat(frames[1..])
  }

  /** The blocks of a stream of readings, in order. */
  function Frames(rs: seq<Reading>): seq<Frame>
  {
    if rs == [] then [] else [rs[0].frame] + Frames(rs[1..])
  }

  /** The block's events ended the session (an End, when fired, is the last
      event of its block). */
  predicate HasEnd(evs: seq<Event>) {
    |evs| > 0 && evs[|evs| - 1].End?
  }

  /** One iteration of the listening loop. The idle branch may open a session;
      the active branch then runs in the same iteration, so the block that
      opened the session is buffered as well. */
  function Step(p: Params, d: Detector, r: Reading): StepResult
  {
    var opens := !d.active && Loud(p, r);
    var started := if opens then [Start] else [];
    var d1 := if opens then Detector([], Some(r.now), true) else d;
    if !d1.active then
      StepResult(d1, started)
    else
      var buffer := d1.buffer + [r.frame];
      var timer := if Loud(p, r) then Some(r.now) else d1.timer;
      if timer.Some? && EndCondition(p, timer.value, r.now, |buffer|) then
        StepResult(Init, started + [End(Concat(buffer))])
      else
        StepResult(Detector(buffer, timer, true), started)
  }

  /** The loop over a finite stream of blocks: the state after the last block,
      and every event fired, in order. */
  function Run(p: Params, d: Detector, rs: seq<Reading>): StepResult
    decreases |rs|
  {
    if rs == [] then StepResult(d, [])
    else
      var s := Step(p, d, rs[0]);
      var rest := Run(p, s.next, rs[1..]);
      StepResult(rest.next, s.events + rest.events)
  }

  // ---------------------------------------------------------------------
  // One block

  /** One iteration keeps the invariant; it fires Start exactly when an idle
      detector meets a loud block; after an End the detector is back in its
      initial state; otherwise a block that is loud or arrives during a
      session is appended to the tail of the buffer (a fresh one if the
      session just opened). */
  lemma StepProperties(p: Params, d: Detector, r: Reading)
    ensures var res := Step(p, d, r);
            && (Inv(d) ==> Inv(res.next))
            && (Start in res.events <==> !d.active && Loud(p, r))
            && (HasEnd(res.events) ==> res.next == Init)
            && (!HasEnd(res.events) && (d.active || Loud(p, r)) ==>
                  res.next.active && res.next.buffer == (if d.active then d.buffer else []) + [r.frame])
  {
  }

  /** The loop keeps the invariant over any finite stream. */
  lemma {:induction false} RunKeepsInv(p: Params, d: Detector, rs: seq<Reading>)
    requires Inv(d)
    ensures Inv(Run(p, d, rs).next)
    decreases |rs|
  {
    if rs != [] {
      StepProperties(p, d, rs[0]);
      RunKeepsInv(p, Step(p, d, rs[0]).next, rs[1..]);
    }
  }

  /** From idle, a quiet block changes nothing and fires nothing. */
  lemma IdleQuietBlock(p: Params, d: Detector, r: Reading)
    requires !d.active && !Loud(p, r)
    ensures Step(p, d, r) == StepResult(d, [])
  {
  }

  /** From idle, a loud block fires exactly one Start, opens a session timed
      from this block, and the buffer holds exactly this block. */
  lemma IdleLoudBlock(p: Params, d: Detector, r: Reading)
    requires NonNegativeTimeouts(p)
    requires !d.active && Loud(p, r)
    ensures Step(p, d, r) == StepResult(Detector([r.frame], Some(r.now), true), [Start])
  {
  }

  /** While active, a block never fires Start. */
  lemma ActiveNeverStarts(p: Params, d: Detector, r: Reading)
    requires d.active
    ensures Start !in Step(p, d, r).events
  {
  }

  /** While active, a loud block re-arms the timer and never ends the session. */
  lemma LoudNeverEnds(p: Params, d: Detector, r: Reading)
    requires NonNegativeTimeouts(p)
    requires d.active && Loud(p, r)
    ensures Step(p, d, r) == StepResult(Detector(d.buffer + [r.frame], Some(r.now), true), [])
  {
  }

  /** With the silence timeout the shorter one, the initial-listening disjunct
      adds nothing: the end test is the silence test alone. */
  lemma InitialTimeoutSubsumed(p: Params, timer: real, now: real, buffered: nat)
    requires SilenceFirst(p)
    ensures EndCondition(p, timer, now, buffered) <==> now - timer > p.silenceTimeout
  {
  }

  /** When the initial-listening timeout is the shorter one, its disjunct does
      fire on its own; the subsumption depends on the order of the timeouts. */
  lemma InitialTimeoutMattersOtherwise(p: Params, timer: real)
    requires 0.0 <= p.initialTimeout < p.silenceTimeout
    ensures var now := timer + p.silenceTimeout;
            EndCondition(p, timer, now, 1) && !(now - timer > p.silenceTimeout)
  {
  }

  /** In an active session, the block ends it exactly when it is quiet and the
      time since the last loud block exceeds the silence timeout. */
  lemma EndIffSilence(p: Params, d: Detector, r: Reading)
    requires SilenceFirst(p)
    requires d.active && d.timer.Some?
    ensures HasEnd(Step(p, d, r).events) <==> !Loud(p, r) && r.now - d.timer.value > p.silenceTimeout
  {
  }

  /** An ending block delivers the session's blocks, this one included, joined
      in order; the session already held at least one block, so the utterance
      carries at least the opening block's samples and this block's; the
      detector is idle again. */
  lemma EndDeliversBuffer(p: Params, d: Detector, r: Reading)
    requires Inv(d) && d.active
    requires HasEnd(Step(p, d, r).events)
    ensures Step(p, d, r) == StepResult(Init, [End(Concat(d.buffer + [r.frame]))])
    ensures |d.buffer| > 0
    ensures |Concat(d.buffer + [r.frame])| >= |d.buffer[0]| + |r.frame|
  {
    ConcatAppend(d.buffer, [r.frame]);
    assert Concat([r.frame]) == r.frame by { EmptyRight(r.frame); }
  }

  // ---------------------------------------------------------------------
  // Joining blocks

  lemma {:induction false} ConcatAppend(a: seq<Frame>, b: seq<Frame>)
    ensures Concat(a + b) == Concat(a) + Concat(b)
    decreases |a|
  {
    if a == [] {
      EmptyLeft(b);
    } else {
      assert (a + b)[0] == a[0];
      assert (a + b)[1..] == a[1..] + b;
      ConcatAppend(a[1..], b);
    }
  }

  /** Blocks of one fixed size join to that many times the size. */
  lemma {:induction false} ConcatUniformLength(frames: seq<Frame>, size: nat)
    requires forall i | 0 <= i < |frames| :: |frames[i]| == size
    ensures |Concat(frames)| == size * |frames|
    decreases |frames|
  {
    if frames != [] {
      ConcatUniformLength(frames[1..], size);
    }
  }

  // ---------------------------------------------------------------------
  // Streams of blocks

  lemma {:induction false} FramesAppend(a: seq<Reading>, b: seq<Reading>)
    ensures Frames(a + b) == Frames(a) + Frames(b)
    decreases |a|
  {
    if a == [] {
      EmptyLeft(b);
    } else {
      assert (a + b)[0] == a[0];
      assert (a + b)[1..] == a[1..] + b;
      FramesAppend(a[1..], b);
    }
  }

  lemma {:induction false} RunAppend(p: Params, d: Detector, a: seq<Reading>, b: seq<Reading>)
    ensures var ra := Run(p, d, a);
            var rb := Run(p, ra.next, b);
            Run(p, d, a + b) == StepResult(rb.next, ra.events + rb.events)
    decreases |a|
  {
    if a == [] {
      EmptyLeft(b);
    } else {
      var s := Step(p, d, a[0]);
      var rab := Run(p, s.next, a[1..] + b);
      assert Run(p, d, a + b) == StepResult(rab.next, s.events + rab.events) by {
        assert (a + b)[0] == a[0];
        assert (a + b)[1..] == a[1..] + b;
      }
      RunAppend(p, s.next, a[1..], b);
      var ra := Run(p, s.next, a[1..]);
      SeqAssoc(s.events, ra.events, Run(p, ra.next, b).events);
    }
  }

  predicate AllQuiet(p: Params, rs: seq<Reading>) {
    forall i | 0 <= i < |rs| :: !Loud(p, rs[i])
  }

  predicate AllLoud(p: Params, rs: seq<Reading>) {
    forall i | 0 <= i < |rs| :: Loud(p, rs[i])
  }

  /** An idle detector fed only quiet blocks stays as it is and fires nothing. */
  lemma {:induction false} QuietStreamIsSilent(p: Params, d: Detector, rs: seq<Reading>)
    requires !d.active && AllQuiet(p, rs)
    ensures Run(p, d, rs) == StepResult(d, [])
    decreases |rs|
  {
    if rs != [] {
      QuietStreamIsSilent(p, d, rs[1..]);
    }
  }

  /** An active session fed only loud blocks buffers them all, keeps the timer
      on the latest one, and fires nothing. */
  lemma {:induction false} LoudStreamKeepsListening(p: Params, d: Detector, rs: seq<Reading>)
    requires NonNegativeTimeouts(p)
    requires d.active && |rs| > 0 && AllLoud(p, rs)
    ensures Run(p, d, rs) ==
            StepResult(Detector(d.buffer + Frames(rs), Some(rs[|rs| - 1].now), true), [])
    decreases |rs|
  {
    var d1 := Detector(d.buffer + [rs[0].frame], Some(rs[0].now), true);
    var rest := rs[1..];
    assert Run(p, d, rs) == Run(p, d1, rest) by {
      LoudNeverEnds(p, d, rs[0]);
      EmptyLeft(Run(p, d1, rest).events);
    }
    if |rs| > 1 {
      assert AllLoud(p, rest) by {
        assert forall i | 0 <= i < |rest| :: rest[i] == rs[i + 1];
      }
      LoudStreamKeepsListening(p, d1, rest);
      SeqAssoc(d.buffer, [rs[0].frame], Frames(rest));
    } else {
      assert Frames(rs) == [rs[0].frame];
    }
  }

  /** A run of loud blocks from idle fires exactly one Start. */
  lemma LoudStreamStartsOnce(p: Params, d: Detector, rs: seq<Reading>)
    requires NonNegativeTimeouts(p)
    requires !d.active && |rs| > 0 && AllLoud(p, rs)
    ensures Run(p, d, rs) == StepResult(Detector(Frames(rs), Some(rs[|rs| - 1].now), true), [Start])
  {
    var d1 := Detector([rs[0].frame], Some(rs[0].now), true);
    assert Step(p, d, rs[0]) == StepResult(d1, [Start]);
    if |rs| > 1 {
      LoudStreamKeepsListening(p, d1, rs[1..]);
      assert Frames(rs) == [rs[0].frame] + Frames(rs[1..]);
    } else {
      assert Frames(rs) == [rs[0].frame];
    }
  }

  lemma QuietBlockWithinTimeout(p: Params, d: Detector, r: Reading)
    requires SilenceFirst(p)
    requires d.active && d.timer.Some? && !Loud(p, r)
    requires r.now - d.timer.value <= p.silenceTimeout
    ensures Step(p, d, r) == StepResult(Detector(d.buffer + [r.frame], d.timer, true), [])
  {
  }

  /** An active session fed quiet blocks that all arrive within the silence
      timeout of the timer buffers them all and fires nothing. */
  lemma {:induction false} QuietWithinTimeoutKeepsListening(p: Params, d: Detector, rs: seq<Reading>)
    requires SilenceFirst(p)
    requires d.active && d.timer.Some? && AllQuiet(p, rs)
    requires forall i | 0 <= i < |rs| :: rs[i].now - d.timer.value <= p.silenceTimeout
    ensures Run(p, d, rs) == StepResult(Detector(d.buffer + Frames(rs), d.timer, true), [])
    decreases |rs|
  {
    if rs == [] {
      assert d.buffer + Frames(rs) == d.buffer;
    } else {
      var d1 := Detector(d.buffer + [rs[0].frame], d.timer, true);
      var rest := rs[1..];
      assert Run(p, d, rs) == Run(p, d1, rest) by {
        QuietBlockWithinTimeout(p, d, rs[0]);
        EmptyLeft(Run(p, d1, rest).events);
      }
      assert AllQuiet(p, rest) && forall i | 0 <= i < |rest| :: rest[i].now - d1.timer.value <= p.silenceTimeout by {
        assert forall i | 0 <= i < |rest| :: rest[i] == rs[i + 1];
      }
      QuietWithinTimeoutKeepsListening(p, d1, rest);
      SeqAssoc(d.buffer, [rs[0].frame], Frames(rest));
    }
  }

  /** Speech followed by silence: loud blocks, then quiet blocks within the
      silence timeout of the last loud one, then a quiet block past it. The
      stream fires one Start and one End, and the End carries every block from
      the first loud one to the ending one, inclusive and in order. */
  lemma SpeechThenSilence(p: Params, loud: seq<Reading>, quiet: seq<Reading>, last: Reading)
    requires SilenceFirst(p)
    requires |loud| > 0 && AllLoud(p, loud)
    requires AllQuiet(p, quiet) && !Loud(p, last)
    requires forall i | 0 <= i < |quiet| :: quiet[i].now - loud[|loud| - 1].now <= p.silenceTimeout
    requires last.now - loud[|loud| - 1].now > p.silenceTimeout
    ensures Run(p, Init, loud + quiet + [last]) ==
            StepResult(Init, [Start, End(Concat(Frames(loud + quiet + [last])))])
  {
    var t := loud[|loud| - 1].now;
    var d1 := Detector(Frames(loud), Some(t), true);
    LoudStreamStartsOnce(p, Init, loud);
    QuietWithinTimeoutKeepsListening(p, d1, quiet);
    var d2 := Detector(Frames(loud) + Frames(quiet), Some(t), true);
    assert Step(p, d2, last) == StepResult(Init, [End(Concat(d2.buffer + [last.frame]))]);
    assert Run(p, d2, [last]) == StepResult(Init, [End(Concat(d2.buffer + [last.frame]))]);
    RunAppend(p, Init, loud, quiet);
    RunAppend(p, Init, loud + quiet, [last]);
    FramesAppend(loud, quiet);
    FramesAppend(loud + quiet, [last]);
    assert Frames([last]) == [last.frame];
  }

  // ---------------------------------------------------------------------
  // Alternation of Start and End

  /** Events alternate between Start and End, beginning with Start from idle
      and with End from an active session. */
  predicate Alternating(evs: seq<Event>, active: bool) {
    evs == [] || ((evs[0].Start? <==> !active) && Alternating(evs[1..], !active))
  }

  /** Whether a session is active after the given events. */
  function PhaseAfter(evs: seq<Event>, active: bool): bool {
    if |evs| % 2 == 0 then active else !active
  }

  lemma {:induction false} AlternatingAppend(a: seq<Event>, b: seq<Event>, active: bool)
    requires Alternating(a, active) && Alternating(b, PhaseAfter(a, active))
    ensures Alternating(a + b, active)
    decreases |a|
  {
    if a != [] {
      assert (a + b)[0] == a[0];
      assert (a + b)[1..] == a[1..] + b;
      AlternatingAppend(a[1..], b, !active);
    } else {
      EmptyLeft(b);
    }
  }

  lemma PhaseAfterAppend(a: seq<Event>, b: seq<Event>, active: bool)
    ensures PhaseAfter(a + b, active) == PhaseAfter(b, PhaseAfter(a, active))
  {
    assert |a + b| == |a| + |b|;
  }

  lemma StepAlternates(p: Params, d: Detector, r: Reading)
    requires Inv(d)
    ensures Alternating(Step(p, d, r).events, d.active)
    ensures Step(p, d, r).next.active == PhaseAfter(Step(p, d, r).events, d.active)
  {
    var s := Step(p, d, r);
    if d.active {
      if s.events != [] {
        assert s.events == [s.events[0]] && s.events[0].End?;
        assert s.events[1..] == [];
      }
    } else if Loud(p, r) {
      if HasEnd(s.events) {
        assert s.events == [Start, s.events[1]] && s.events[1].End?;
        assert s.events[1..] == [s.events[1]];
        assert s.events[1..][1..] == [];
      } else {
        assert s.events == [Start];
        assert s.events[1..] == [];
      }
    }
  }

  /** Over any stream from a state that keeps the invariant, the session goes
      idle, active, idle, ... : Start and End alternate, and the final phase is
      the one the events lead to. */
  lemma {:induction false} RunAlternates(p: Params, d: Detector, rs: seq<Reading>)
    requires Inv(d)
    ensures Alternating(Run(p, d, rs).events, d.active)
    ensures Run(p, d, rs).next.active == PhaseAfter(Run(p, d, rs).events, d.active)
    decreases |rs|
  {
    if rs != [] {
      var s := Step(p, d, rs[0]);
      StepAlternates(p, d, rs[0]);
      RunAlternates(p, s.next, rs[1..]);
      var rest := Run(p, s.next, rs[1..]);
      assert Run(p, d, rs) == StepResult(rest.next, s.events + rest.events);
      AlternatingAppend(s.events, rest.events, d.active);
      PhaseAfterAppend(s.events, rest.events, d.active);
    }
  }

  // ---------------------------------------------------------------------
  // No captured audio is lost

  /** The blocks the detector buffers: each block that arrives during a
      session or opens one. */
  function Captured(p: Params, d: Detector, rs: seq<Reading>): seq<Frame>
    decreases |rs|
  {
    if rs == [] then []
    else
      (if d.active || Loud(p, rs[0]) then [rs[0].frame] else [])
      + Captured(p, Step(p, d, rs[0]).next, rs[1..])
  }

  /** All audio delivered by the End events, in order. */
  function Delivered(evs: seq<Event>): seq<Sample>
  {
    if evs == [] then []
    else (if evs[0].End? then evs[0].utterance else []) + Delivered(evs[1..])
  }

  lemma {:induction false} DeliveredAppend(a: seq<Event>, b: seq<Event>)
    ensures Delivered(a + b) == Delivered(a) + Delivered(b)
    decreases |a|
  {
    if a == [] {
      EmptyLeft(b);
    } else {
      assert (a + b)[0] == a[0];
      assert (a + b)[1..] == a[1..] + b;
      DeliveredAppend(a[1..], b);
    }
  }

  lemma DeliveredOneSession(u: seq<Sample>)
    ensures Delivered([End(u)]) == u
    ensures Delivered([Start, End(u)]) == u
  {
    assert [End(u)][1..] == [];
    assert Delivered([End(u)]) == u + Delivered([]);
    assert [Start, End(u)][1..] == [End(u)];
  }

  lemma StepConservesAudio(p: Params, d: Detector, r: Reading)
    requires Inv(d)
    ensures var s := Step(p, d, r);
            Delivered(s.events) + Concat(s.next.buffer)
            == Concat(d.buffer + (if d.active || Loud(p, r) then [r.frame] else []))
  {
    var s := Step(p, d, r);
    if d.active || Loud(p, r) {
      var buffer := (if d.active then d.buffer else []) + [r.frame];
      assert buffer == d.buffer + [r.frame];
      if HasEnd(s.events) {
        var u := Concat(buffer);
        DeliveredOneSession(u);
        if d.active {
          assert s.events == [End(u)];
        } else {
          assert s.events == [Start, End(u)];
        }
      } else {
        assert Delivered(s.events) == [];
      }
    } else {
      EmptyRight(d.buffer);
    }
  }

  lemma ConcatRegroup(a: seq<Frame>, b: seq<Frame>, c: seq<Frame>)
    ensures Concat(a + (b + c)) == Concat(a + b) + Concat(c)
  {
    ConcatAppend(a, b + c);
    ConcatAppend(b, c);
    ConcatAppend(a, b);
    SeqAssoc(Concat(a), Concat(b), Concat(c));
  }

  lemma ConservationChain(e1: seq<Event>, e2: seq<Event>, b0: seq<Frame>, b1: seq<Frame>, b2: seq<Frame>,
                          here: seq<Frame>, later: seq<Frame>)
    requires Delivered(e1) + Concat(b1) == Concat(b0 + here)
    requires Delivered(e2) + Concat(b2) == Concat(b1 + later)
    ensures Delivered(e1 + e2) + Concat(b2) == Concat(b0 + (here + later))
  {
    assert Delivered(e1 + e2) == Delivered(e1) + Delivered(e2) by {
      DeliveredAppend(e1, e2);
    }
    assert Concat(b1 + later) == Concat(b1) + Concat(later) by {
      ConcatAppend(b1, later);
    }
    ConcatRegroup(b0, here, later);
    SeqChain(Delivered(e1), Delivered(e2), Concat(b1), Concat(b2), Concat(later), Concat(b0 + here));
  }

  /** Every captured block reaches exactly one place: the audio of the End
      events fired, followed by what is still buffered, is the buffered audio
      at the start followed by every captured block, in arrival order. */
  lemma {:induction false} RunConservesAudio(p: Params, d: Detector, rs: seq<Reading>)
    requires Inv(d)
    ensures var res := Run(p, d, rs);
            Delivered(res.events) + Concat(res.next.buffer) == Concat(d.buffer + Captured(p, d, rs))
    decreases |rs|
  {
    if rs == [] {
      EmptyRight(d.buffer);
    } else {
      var s := Step(p, d, rs[0]);
      var rest := Run(p, s.next, rs[1..]);
      var here := if d.active || Loud(p, rs[0]) then [rs[0].frame] else [];
      var later := Captured(p, s.next, rs[1..]);
      StepConservesAudio(p, d, rs[0]);
      RunConservesAudio(p, s.next, rs[1..]);
      ConservationChain(s.events, rest.events, d.buffer, s.next.buffer, rest.next.buffer, here, later);
    }
  }

  // ---------------------------------------------------------------------
  // A worked stream with the reference settings

  lemma {:induction false} FramesAt(rs: seq<Reading>)
    ensures |Frames(rs)| == |rs|
    ensures forall i | 0 <= i < |rs| :: Frames(rs)[i] == rs[i].frame
    decreases |rs|
  {
    if rs != [] {
      FramesAt(rs[1..]);
    }
  }

  /** A stream of 0.1 s blocks of RecordingBlockSize samples, timed at the
      end of each block: nine blocks above the reference threshold, then
      sixteen below it. */
  predicate ReferenceStream(rs: seq<Reading>) {
    && |rs| == 25
    && forall i | 0 <= i < |rs| ::
         && |rs[i].frame| == RecordingBlockSize
         && rs[i].now == (i + 1) as real / 10.0
         && rs[i].energy == (if i < 9 then 0.01 else 0.001)
  }

  lemma ReferenceStreamLength(rs: seq<Reading>)
    requires ReferenceStream(rs)
    ensures |Concat(Frames(rs))| == 25 * RecordingBlockSize
  {
    FramesAt(rs);
    ConcatUniformLength(Frames(rs), RecordingBlockSize);
  }

  /** The reference stream split at its last loud block and at its last
      block. */
  lemma ReferenceStreamPhases(rs: seq<Reading>)
    requires ReferenceStream(rs)
    ensures AllLoud(Reference, rs[..9])
    ensures AllQuiet(Reference, rs[9..24])
    ensures forall i | 0 <= i < 15 :: rs[9..24][i].now - rs[8].now <= Reference.silenceTimeout
    ensures !Loud(Reference, rs[24]) && rs[24].now - rs[8].now > Reference.silenceTimeout
    ensures rs == rs[..9] + rs[9..24] + [rs[24]]
    ensures rs[..24] == rs[..9] + rs[9..24]
  {
    assert forall i | 0 <= i < 15 :: rs[9..24][i] == rs[i + 9];
  }

  /** With the reference settings the session opens on the first block, is
      still open after the 24th, and ends on the 25th, the first one more than
      1.5 s after the last loud block (the test is strict); the utterance is
      all 25 blocks, 25 * 1600 samples. */
  lemma ReferenceScenario(rs: seq<Reading>)
    requires ReferenceStream(rs)
    ensures Run(Reference, Init, rs[..24]).events == [Start]
    ensures Run(Reference, Init, rs) == StepResult(Init, [Start, End(Concat(Frames(rs)))])
    ensures |Concat(Frames(rs))| == 25 * RecordingBlockSize
  {
    ReferenceStreamPhases(rs);
    ReferenceStreamLength(rs);
    var loud := rs[..9];
    var quiet := rs[9..24];
    SpeechThenSilence(Reference, loud, quiet, rs[24]);
    LoudStreamStartsOnce(Reference, Init, loud);
    QuietWithinTimeoutKeepsListening(Reference, Detector(Frames(loud), Some(loud[8].now), true), quiet);
    RunAppend(Reference, Init, loud, quiet);
  }
}
