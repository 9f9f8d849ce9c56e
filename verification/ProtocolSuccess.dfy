/** A command that nothing goes wrong with succeeds, whatever the interleaving. */
module ProtocolSuccess {
  import opened Bytes
  import opened Protocol
  import opened ProtocolSafety
  import opened ProtocolLiveness
  import Codec = Setup

  /** No crash, no raise, no early stop and no failed call; short counts, waits and signals remain. */
  predicate Clean(l: Label)
  {
    !l.Crash? && !l.choice.raises && !l.choice.stops && !l.choice.other
  }

  predicate NoFail(script: seq<Event>)
  {
    forall i | 0 <= i < |script| :: !script[i].Fail?
  }

  /** The engine does its part, and the payload is one the helper takes. */
  predicate Willing(c: Config)
  {
    && c.openError.None? && |c.setup| < Codec.SETUP_MAX
    && (c.mode == From ==> EndsCleanly(c.script))
    && (c.mode == To ==> NoFail(c.script))
  }

  /** Nothing has gone wrong. */
  predicate Smooth(c: Config, s: State)
  {
    && Normal(s.b.phase)
    && (Drains(s.b.phase) ==> s.b.phase.why == if c.mode == From then AtEof else Finishing)
    && (s.b.phase.Returned? ==> s.b.phase.eof == (c.mode == From))
    && (s.b.phase.Setup? || s.b.phase.Writing? ==> !s.h.pc.Ended?)
    && (s.h.pc.Ended? ==> s.h.pc == Ended(Exited(0)))
    && !Failing(s.h.pc)
    && (c.mode == To ==> NoFail(s.h.script))
  }

  lemma SmoothStart(c: Config)
    requires Willing(c)
    ensures Smooth(c, Init(c))
  {
  }

  // ---- The helper -------------------------------------------------------

  lemma SmoothSetup(c: Config, s: State, ch: Choice)
    requires c.Valid() && Willing(c) && Control(c, s) && SetupData(c, s) && Smooth(c, s) && s.h.pc.ReadSetup?
    ensures Smooth(c, NextHelper(c, s, ch))
  {
    hide Accepted, Decoded, Carries, Amount;
    ReadIsPrefix(c, s);
    if s.setup.bytes == [] && !s.setup.open {
      WholeAtEof(c, s);
    }
  }

  lemma SmoothOpening(c: Config, s: State, ch: Choice)
    requires c.Valid() && Willing(c) && SetupData(c, s) && Smooth(c, s) && s.h.pc.Opening?
    ensures Smooth(c, NextHelper(c, s, ch))
  {
    hide Accepted, Decoded, Carries, SetupData;
    OpensAsSent(c, s);
  }

  /** While the backend writes, the data channel is open, so the insert stream is not being closed. */
  lemma SmoothCall(c: Config, s: State, ch: Choice)
    requires Willing(c) && Control(c, s) && Smooth(c, s) && s.h.pc.Calling?
    requires if c.mode == From then FromEngine(c, s) else ToWire(s)
    ensures Smooth(c, NextHelper(c, s, ch))
  {
    hide Accepted, Decoded, StreamOf;
  }

  lemma SmoothTalk(c: Config, s: State, ch: Choice)
    requires Control(c, s) && Smooth(c, s) && s.h.pc.Talking? && !ch.other
    ensures Smooth(c, NextHelper(c, s, ch))
  {
    hide Accepted, Decoded;
  }

  lemma SmoothMove(c: Config, s: State, ch: Choice)
    requires Control(c, s) && Smooth(c, s) && (s.h.pc.Sending? || s.h.pc.Reading? || s.h.pc.Ended?)
    requires s.h.pc.Sending? ==> c.mode == From
    ensures Smooth(c, NextHelper(c, s, ch))
  {
    hide Accepted, Decoded, Amount;
  }

  lemma SmoothHelper(c: Config, s: State, ch: Choice)
    requires c.Valid() && Willing(c) && Inv(c, s) && Smooth(c, s) && !ch.other
    ensures Smooth(c, NextHelper(c, s, ch))
  {
    hide Carries, Control, SetupData, Bounded, ErrWire, FromSpeech, ToCaller, NextHelper, Smooth;
    match s.h.pc
    case ReadSetup => SmoothSetup(c, s, ch);
    case Opening => SmoothOpening(c, s, ch);
    case Calling(_) => SmoothCall(c, s, ch);
    case Talking(_, _) => SmoothTalk(c, s, ch);
    case _ => SmoothMove(c, s, ch);
  }

  // ---- The backend ------------------------------------------------------

  lemma SmoothBackend(c: Config, s: State, ch: Choice)
    requires c.Sized() && Control(c, s) && Smooth(c, s)
    requires c.mode == To ==> ToCaller(c, s)
    requires !ch.raises && !ch.stops && !ch.other
    ensures Smooth(c, NextBackend(c, s, ch))
  {
    hide Amount;
    match s.b.phase
    case Setup(_) =>
    case Receiving =>
    case Writing(_) =>
    case _ =>
  }

  lemma SmoothStep(c: Config, s: State, l: Label)
    requires c.Valid() && Willing(c) && Inv(c, s) && Smooth(c, s) && Clean(l)
    ensures Smooth(c, NextState(c, s, l))
  {
    hide Carries, Control, SetupData, Bounded, ErrWire, FromSpeech, FromEngine, FromWire, ToWire, ToCaller, NextHelper, NextBackend, Smooth, Willing;
    match l
    case Backend(ch) => SmoothBackend(c, s, ch);
    case Helper(ch) => SmoothHelper(c, s, ch);
  }

  lemma {:induction false} SmoothRun(c: Config, run: nat -> State, labels: nat -> Label, n: nat)
    requires c.Valid() && Willing(c) && Run(c, run, labels) && forall i: nat :: Clean(labels(i))
    ensures Smooth(c, run(n))
  {
    hide Carries, Inv, Smooth, Willing, NextState, Clean;
    if n == 0 {
      SmoothStart(c);
    } else {
      SmoothRun(c, run, labels, n - 1);
      InvRun(c, run, labels, n - 1);
      SmoothStep(c, run(n - 1), labels(n - 1));
      assert run(n - 1 + 1) == NextState(c, run(n - 1), labels(n - 1));
    }
  }

  // ---- What success means -----------------------------------------------

  lemma ReturnedFrom(c: Config, s: State)
    requires c.Valid() && Inv(c, s) && c.mode == From && s.b.phase == Returned(true)
    ensures s.b.received == StreamOf(c.script) && Willing(c)
  {
    hide Carries, Bounded, ErrWire, FromSpeech;
  }

  lemma ReturnedTo(c: Config, s: State)
    requires c.Valid() && Inv(c, s) && c.mode == To && s.b.phase.Returned?
    ensures s.h.appended == Flatten(c.blocks) && s.h.finished
  {
    hide Carries, Bounded, ErrWire, SetupData;
  }

  /**
    COPY FROM, with nothing going wrong outside the engine: every fair run ends, and it
    ends with the whole stream and a zero exactly when the engine ends its stream
    without a failure and the payload is under the limit.
   */
  lemma FairCopyFromSucceeds(c: Config, run: nat -> State, labels: nat -> Label, nextB: nat -> nat, nextH: nat -> nat)
    requires c.Valid() && c.mode == From
    requires Run(c, run, labels) && Fair(labels, nextB, nextH) && forall i: nat :: Clean(labels(i))
    ensures exists n: nat ::
              && Final(run(n))
              && (run(n).b.phase == Returned(true) <==>
                    c.openError.None? && |c.setup| < Codec.SETUP_MAX && EndsCleanly(c.script))
              && (run(n).b.phase == Returned(true) ==> run(n).b.received == StreamOf(c.script))
  {
    hide Carries, Inv, Smooth, NextState, Clean;
    var n := Finishes(c, run, labels, nextB, nextH, 0);
    InvRun(c, run, labels, n);
    if run(n).b.phase == Returned(true) {
      ReturnedFrom(c, run(n));
    }
    if Willing(c) {
      SmoothRun(c, run, labels, n);
      SmoothEnd(c, run(n));
    }
  }

  /** COPY TO likewise: an engine that does not fail has been given every byte in order. */
  lemma FairCopyToSucceeds(c: Config, run: nat -> State, labels: nat -> Label, nextB: nat -> nat, nextH: nat -> nat)
    requires c.Valid() && c.mode == To
    requires Run(c, run, labels) && Fair(labels, nextB, nextH) && forall i: nat :: Clean(labels(i))
    requires c.openError.None? && |c.setup| < Codec.SETUP_MAX && forall i | 0 <= i < |c.script| :: !c.script[i].Fail?
    ensures exists n: nat ::
              && run(n).b.phase == Returned(false)
              && run(n).h.appended == Flatten(c.blocks) && run(n).h.finished
  {
    hide Carries, Inv, Smooth, NextState, Clean;
    var n := Finishes(c, run, labels, nextB, nextH, 0);
    InvRun(c, run, labels, n);
    SmoothRun(c, run, labels, n);
    SmoothEnd(c, run(n));
    ReturnedTo(c, run(n));
  }

  lemma SmoothEnd(c: Config, s: State)
    requires Smooth(c, s) && Final(s)
    ensures s.b.phase == Returned(c.mode == From)
  {
  }
}
