/**
  The protocol neither deadlocks nor runs forever.

  A step that moves a byte, answers an engine call or changes a phase lowers a
  natural number. The other steps are the polling ones: they change nothing but
  the flag that says whether the backend is inside drain_err.
 */
module ProtocolLiveness {
  import opened Bytes
  import opened Protocol
  import opened ProtocolSafety

  // ---- The measure ------------------------------------------------------

  function ScriptCost(script: seq<Event>): nat
  {
    if script == [] then 0
    else 4 + 3 * |Payload(script[0])| + ScriptCost(script[1..])
  }

  function Payload(event: Event): Bytes
  {
    match event
    case Say(text) => text
    case Answer(chunk) => chunk
    case Fail(text) => text
  }

  function BlocksCost(blocks: seq<Bytes>): nat
  {
    if blocks == [] then 0 else 1 + 4 * |blocks[0]| + BlocksCost(blocks[1..])
  }

  function OpenCost(c: Config): nat
  {
    if c.openError.Some? then 2 * |c.openError.value| else 0
  }

  function CallCost(call: Call): nat
  {
    if call.Append? then 1 + 2 * |call.buf| else 1
  }

  function PcCost(c: Config, pc: HelperPc): nat
  {
    match pc
    case ReadSetup => 6 + OpenCost(c)
    case Opening => 5 + OpenCost(c)
    case Calling(call) => CallCost(call)
    case Talking(text, next) => 2 + 2 * |text| + if next.Resume? then CallCost(next.call) else 0
    case Sending(chunk) => 2 + 2 * |chunk|
    case Reading => 2
    case Ended(_) => 0
  }

  function PhaseCost(p: Phase): nat
  {
    match p
    case Setup(rest) => 20 + 2 * |rest|
    case Receiving => 12
    case Writing(rest) => 12 + 4 * |rest|
    case Draining(_) => 9
    case Reaping(_) => 7
    case Closing => 5
    case Killing => 4
    case Waiting => 3
    case Returned(_) => 0
    case Raised => 0
  }

  function DataCost(c: Config, data: Channel): nat
  {
    if c.mode == From then |data.bytes| else 3 * |data.bytes|
  }

  /** What is left to do: a byte weighs more the further it is from its reader. */
  function Left(c: Config, s: State): nat
  {
    PhaseCost(s.b.phase) + BlocksCost(s.b.toSend) + PcCost(c, s.h.pc) + ScriptCost(s.h.script)
    + |s.setup.bytes| + DataCost(c, s.data) + |s.err.bytes| + if s.err.open then 1 else 0
  }

  function WithDraining(s: State, draining: bool): State
  {
    s.(b := s.b.(draining := draining))
  }

  /** The program counters that fit the direction of the copy. */
  predicate FitsMode(c: Config, s: State)
  {
    (c.mode == From ==> FromPc(s.h.pc)) && (c.mode == To ==> ToPc(s.h.pc))
  }

  // ---- Every step lowers the measure or is a poll -------------------------

  lemma AnswerLowers(c: Config, h: HelperState, call: Call, chunk: Bytes)
    requires call.Append? ==> call.buf != []
    ensures Answered(h, call, chunk).script == h.script
    ensures PcCost(c, Answered(h, call, chunk).pc) < PcCost(c, Calling(call)) + if chunk == [] then 0 else 4 + 3 * |chunk|
  {
  }

  lemma EngineLowers(c: Config, h: HelperState)
    requires h.pc.Calling? && (h.pc.call.Append? ==> h.pc.call.buf != [])
    ensures var h' := CallEngine(h, h.pc.call);
            PcCost(c, h'.pc) + ScriptCost(h'.script) < PcCost(c, h.pc) + ScriptCost(h.script)
  {
    if h.script == [] {
      AnswerLowers(c, h, h.pc.call, []);
    } else {
      var h1 := h.(script := h.script[1..]);
      match h.script[0]
      case Say(_) =>
      case Answer(chunk) => AnswerLowers(c, h1, h.pc.call, chunk);
      case Fail(_) =>
    }
  }

  lemma TalkLowers(c: Config, s: State, ch: Choice)
    requires c.Sized() && s.h.pc.Talking?
    ensures NextHelper(c, s, ch) == s || Left(c, NextHelper(c, s, ch)) < Left(c, s)
  {
    hide PhaseCost, BlocksCost, ScriptCost, DataCost, Accepted, Decoded;
  }

  lemma SendLowers(c: Config, s: State, ch: Choice)
    requires c.Sized() && FitsMode(c, s) && s.h.pc.Sending?
    ensures NextHelper(c, s, ch) == s || Left(c, NextHelper(c, s, ch)) < Left(c, s)
  {
    hide Accepted, Decoded;
  }

  lemma SetupLowers(c: Config, s: State, ch: Choice)
    requires s.h.pc.ReadSetup?
    ensures NextHelper(c, s, ch) == s || Left(c, NextHelper(c, s, ch)) < Left(c, s)
  {
    hide Accepted, PhaseCost, BlocksCost, ScriptCost, DataCost;
  }

  lemma ReadLowers(c: Config, s: State, ch: Choice)
    requires FitsMode(c, s) && s.h.pc.Reading?
    ensures NextHelper(c, s, ch) == s || Left(c, NextHelper(c, s, ch)) < Left(c, s)
  {
    hide Accepted, Decoded;
  }

  lemma HelperLowers(c: Config, s: State, ch: Choice)
    requires c.Sized() && FitsMode(c, s)
    ensures NextHelper(c, s, ch) == s || Left(c, NextHelper(c, s, ch)) < Left(c, s)
  {
    hide Accepted, Decoded;
    match s.h.pc
    case Calling(_) => EngineLowers(c, s.h);
    case ReadSetup => SetupLowers(c, s, ch);
    case Talking(_, _) => TalkLowers(c, s, ch);
    case Sending(_) => SendLowers(c, s, ch);
    case Reading => ReadLowers(c, s, ch);
    case _ =>
  }

  lemma PollLowers(c: Config, s: State, ch: Choice)
    requires c.Sized() && Control(c, s) && Polls(s.b.phase) && !ch.interrupt
    ensures
      || NextBackend(c, s, ch) == WithDraining(s, !s.b.draining)
      || Left(c, NextBackend(c, s, ch)) < Left(c, s)
  {
    match s.b.phase
    case Setup(_) =>
    case Receiving =>
    case Writing(_) =>
  }

  lemma BackendLowers(c: Config, s: State, ch: Choice)
    requires c.Sized() && Control(c, s)
    ensures
      || NextBackend(c, s, ch) == s
      || NextBackend(c, s, ch) == WithDraining(s, !s.b.draining)
      || Left(c, NextBackend(c, s, ch)) < Left(c, s)
  {
    if Polls(s.b.phase) && !ch.interrupt {
      PollLowers(c, s, ch);
    }
  }

  lemma CrashLowers(c: Config, s: State, status: Status)
    ensures NextCrash(s, status) == s || Left(c, NextCrash(s, status)) < Left(c, s)
  {
  }

  /** What the steps of the two programs rely on. */
  lemma InvGives(c: Config, s: State)
    requires c.Valid() && Inv(c, s)
    ensures c.Sized() && Control(c, s) && FitsMode(c, s)
  {
    hide Carries, Control, SetupData, ErrWire, Bounded, FromSpeech, ToCaller;
  }

  lemma StepLowers(c: Config, s: State, l: Label)
    requires c.Valid() && Inv(c, s)
    ensures
      || WithDraining(NextState(c, s, l), false) == WithDraining(s, false)
      || Left(c, NextState(c, s, l)) < Left(c, s)
  {
    hide Carries, Inv, Control, FitsMode, NextHelper, NextBackend, NextCrash, Left;
    InvGives(c, s);
    match l
    case Backend(ch) => BackendLowers(c, s, ch);
    case Helper(ch) => HelperLowers(c, s, ch);
    case Crash(status) => CrashLowers(c, s, status);
  }

  lemma Interrupted(c: Config, s: State, ch: Choice)
    requires ch.interrupt
    ensures NextBackend(c, s, ch) == s && NextHelper(c, s, ch) == s
  {
  }

  // ---- Somebody can always move -------------------------------------------

  /** Whatever the helper's next uninterrupted step does, it lowers the measure. */
  ghost predicate HelperReady(c: Config, s: State)
  {
    forall ch: Choice, d: bool | !ch.interrupt ::
      Left(c, NextHelper(c, WithDraining(s, d), ch)) < Left(c, s)
  }

  /** The same for the backend, inside or outside drain_err. */
  ghost predicate BackendReady(c: Config, s: State, d: bool)
  {
    forall ch: Choice | !ch.interrupt :: Left(c, NextBackend(c, WithDraining(s, d), ch)) < Left(c, s)
  }

  /** The helper is in a call that does not return. */
  predicate Blocked(s: State)
  {
    match s.h.pc
    case ReadSetup => s.setup.bytes == [] && s.setup.open
    case Talking(text, _) => text != [] && s.err.open && s.err.bytes != []
    case Sending(chunk) => chunk != [] && s.data.open && s.data.bytes != []
    case Reading => s.data.bytes == [] && s.data.open
    case Ended(_) => true
    case _ => false
  }

  lemma FreeHelperMoves(c: Config, s: State, ch: Choice)
    requires c.Sized() && FitsMode(c, s) && !Blocked(s) && !ch.interrupt
    ensures Left(c, NextHelper(c, s, ch)) < Left(c, s)
  {
    hide Accepted, Decoded;
    HelperLowers(c, s, ch);
    match s.h.pc
    case Calling(_) => EngineLowers(c, s.h);
    case Talking(_, _) =>
    case _ =>
  }

  lemma FreeHelperReady(c: Config, s: State)
    requires c.Sized() && FitsMode(c, s) && !Blocked(s)
    ensures HelperReady(c, s)
  {
    hide Accepted, Decoded;
    forall ch: Choice, d: bool | !ch.interrupt
      ensures Left(c, NextHelper(c, WithDraining(s, d), ch)) < Left(c, s)
    {
      FreeHelperMoves(c, WithDraining(s, d), ch);
    }
  }

  /** A helper stuck on a full error pipe is freed by drain_err. */
  lemma DrainFrees(c: Config, s: State)
    requires Polls(s.b.phase) && s.err.open && s.err.bytes != []
    ensures BackendReady(c, s, true)
  {
  }

  /** Otherwise the backend's own call makes progress. */
  lemma PollFrees(c: Config, s: State)
    requires c.Valid() && Inv(c, s) && Polls(s.b.phase) && Blocked(s)
    requires !(s.h.pc.Talking? && s.err.bytes != [])
    ensures BackendReady(c, s, false)
  {
    hide Carries, Inv, BlocksCost, ScriptCost;
    InvGives(c, s);
    forall ch: Choice | !ch.interrupt
      ensures Left(c, NextBackend(c, WithDraining(s, false), ch)) < Left(c, s)
    {
      PollLowers(c, WithDraining(s, false), ch);
    }
  }

  lemma EndFrees(c: Config, s: State)
    requires c.Valid() && Inv(c, s) && !Polls(s.b.phase) && !Final(s) && Blocked(s)
    ensures BackendReady(c, s, false)
  {
    hide Carries, Accepted, Decoded;
    forall ch: Choice | !ch.interrupt
      ensures Left(c, NextBackend(c, WithDraining(s, false), ch)) < Left(c, s)
    {
      BackendLowers(c, WithDraining(s, false), ch);
    }
  }

  lemma SomebodyReady(c: Config, s: State)
    requires c.Valid() && Inv(c, s) && !Final(s)
    ensures HelperReady(c, s) || BackendReady(c, s, false) || (Polls(s.b.phase) && BackendReady(c, s, true))
  {
    hide Carries, Accepted, Decoded;
    if !Blocked(s) {
      FreeHelperReady(c, s);
    } else if !Polls(s.b.phase) {
      EndFrees(c, s);
    } else if s.h.pc.Talking? && s.err.bytes != [] {
      DrainFrees(c, s);
    } else {
      PollFrees(c, s);
    }
  }

  /** A step of one of the two programs that neither crashes, raises nor is interrupted. */
  predicate Plain(l: Label)
  {
    !l.Crash? && !l.choice.interrupt && !l.choice.raises && !l.choice.stops
  }

  /**
    No deadlock: from every reachable state that is not final, at most two plain
    steps lower the measure, so the channel that blocks one side is always
    served by the other.
   */
  lemma DeadlockFree(c: Config, labels: seq<Label>)
    requires c.Valid() && !Final(Exec(c, Init(c), labels))
    ensures var s := Exec(c, Init(c), labels);
            exists l1, l2 :: Plain(l1) && Plain(l2)
              && (Left(c, NextState(c, s, l1)) < Left(c, s)
                  || Left(c, NextState(c, NextState(c, s, l1), l2)) < Left(c, s))
  {
    hide Carries, Accepted, Decoded;
    InvInit(c);
    InvExec(c, Init(c), labels);
    var s := Exec(c, Init(c), labels);
    SomebodyReady(c, s);
    var ch := Choice(1, false, false, false, false, false);
    var h, b := Helper(ch), Backend(ch);
    assert WithDraining(s, s.b.draining) == s;
    if HelperReady(c, s) {
      assert Left(c, NextState(c, s, h)) < Left(c, s);
      assert Plain(h) && Plain(h);
    } else {
      BackendLowers(c, s, ch);
      var t := NextState(c, s, b);
      assert Left(c, t) < Left(c, s) || Left(c, NextState(c, t, b)) < Left(c, s) by {
        if Polls(s.b.phase) {
          PollLowers(c, s, ch);
        }
      }
      assert Plain(b) && Plain(b);
    }
  }

  // ---- Termination of fair runs -------------------------------------------

  predicate BackendTurn(l: Label)
  {
    l.Backend? && !l.choice.interrupt
  }

  predicate HelperTurn(l: Label)
  {
    l.Helper? && !l.choice.interrupt
  }

  /** An infinite run, given by its states and its labels. */
  ghost predicate Run(c: Config, run: nat -> State, labels: nat -> Label)
  {
    run(0) == Init(c) && forall n: nat :: run(n + 1) == NextState(c, run(n), labels(n))
  }

  /**
    Fairness: after every moment n each program gets an uninterrupted step, at
    nextB(n) and nextH(n). A step that blocks or would block is a step like any other.
   */
  ghost predicate Fair(labels: nat -> Label, nextB: nat -> nat, nextH: nat -> nat)
  {
    && (forall n: nat :: n <= nextB(n) && BackendTurn(labels(nextB(n))))
    && (forall n: nat :: n <= nextH(n) && HelperTurn(labels(nextH(n))))
  }

  lemma {:induction false} InvRun(c: Config, run: nat -> State, labels: nat -> Label, n: nat)
    requires c.Valid() && Run(c, run, labels)
    ensures Inv(c, run(n))
  {
    hide Carries, Accepted, Decoded;
    if n == 0 {
      InvInit(c);
    } else {
      InvRun(c, run, labels, n - 1);
      InvStep(c, run(n - 1), labels(n - 1));
      assert run(n - 1 + 1) == NextState(c, run(n - 1), labels(n - 1));
    }
  }

  lemma DrainingIsFree(c: Config, s: State, t: State)
    requires WithDraining(s, false) == WithDraining(t, false)
    ensures Left(c, s) == Left(c, t)
  {
    assert Left(c, WithDraining(s, false)) == Left(c, s) && Left(c, WithDraining(t, false)) == Left(c, t);
  }

  /** From n to m, either the measure has fallen by k or only the polling flag has changed. */
  lemma {:induction false} Polling(c: Config, run: nat -> State, labels: nat -> Label, n: nat, m: nat) returns (k: nat)
    requires c.Valid() && Run(c, run, labels) && n <= m
    ensures
      || Left(c, run(k)) < Left(c, run(n))
      || WithDraining(run(m), false) == WithDraining(run(n), false)
  {
    hide Carries, Inv, NextState, Left;
    k := n;
    if n < m {
      k := Polling(c, run, labels, n, m - 1);
      if !(Left(c, run(k)) < Left(c, run(n))) {
        InvRun(c, run, labels, m - 1);
        StepLowers(c, run(m - 1), labels(m - 1));
        assert run(m - 1 + 1) == NextState(c, run(m - 1), labels(m - 1));
        if Left(c, run(m)) < Left(c, run(m - 1)) {
          DrainingIsFree(c, run(m - 1), run(n));
          k := m;
        }
      }
    }
  }

  /** From n to the backend's first turn, either the measure falls or nothing changes at all. */
  lemma {:induction false} UntilBackend(c: Config, run: nat -> State, labels: nat -> Label, n: nat, m: nat)
    returns (k: nat)
    requires c.Valid() && Run(c, run, labels) && n <= m && BackendTurn(labels(m))
    ensures
      || Left(c, run(k)) < Left(c, run(n))
      || (BackendTurn(labels(k)) && run(k) == run(n))
    decreases m - n
  {
    hide Carries, Inv, Control, FitsMode, NextHelper, NextBackend, NextCrash, Left;
    k := n;
    if !BackendTurn(labels(n)) {
      InvRun(c, run, labels, n);
      assert run(n + 1) == NextState(c, run(n), labels(n));
      InvGives(c, run(n));
      match labels(n) {
        case Helper(ch) => HelperLowers(c, run(n), ch);
        case Crash(status) => CrashLowers(c, run(n), status);
        case Backend(ch) => Interrupted(c, run(n), ch);
      }
      if run(n + 1) == run(n) {
        k := UntilBackend(c, run, labels, n + 1, m);
      } else {
        k := n + 1;
      }
    }
  }

  /** The backend gets to its call, or to drain_err, whichever makes progress. */
  lemma BackendFalls(c: Config, run: nat -> State, labels: nat -> Label, nextB: nat -> nat, nextH: nat -> nat,
                     n: nat, d: bool) returns (k: nat)
    requires c.Valid() && Run(c, run, labels) && Fair(labels, nextB, nextH)
    requires BackendReady(c, run(n), d)
    requires run(n).b.draining == d || Polls(run(n).b.phase)
    ensures Left(c, run(k)) < Left(c, run(n))
  {
    hide Carries, Accepted, Decoded;
    var s := run(n);
    InvRun(c, run, labels, n);
    k := UntilBackend(c, run, labels, n, nextB(n));
    if !(Left(c, run(k)) < Left(c, s)) {
      var l := labels(k);
      assert WithDraining(s, s.b.draining) == s;
      assert run(k + 1) == NextState(c, run(k), l);
      if s.b.draining != d {
        PollLowers(c, s, l.choice);
        if !(Left(c, run(k + 1)) < Left(c, s)) {
          assert run(k + 1) == WithDraining(s, d);
          var k' := UntilBackend(c, run, labels, k + 1, nextB(k + 1));
          if Left(c, run(k')) < Left(c, run(k + 1)) {
            k := k';
          } else {
            assert run(k' + 1) == NextState(c, run(k'), labels(k'));
            k := k' + 1;
          }
        } else {
          k := k + 1;
        }
      } else {
        k := k + 1;
      }
    }
  }

  lemma HelperFalls(c: Config, run: nat -> State, labels: nat -> Label, nextB: nat -> nat, nextH: nat -> nat,
                    n: nat) returns (k: nat)
    requires c.Valid() && Run(c, run, labels) && Fair(labels, nextB, nextH)
    requires HelperReady(c, run(n))
    ensures Left(c, run(k)) < Left(c, run(n))
  {
    hide Carries, Accepted, Decoded;
    var m := nextH(n);
    k := Polling(c, run, labels, n, m);
    if !(Left(c, run(k)) < Left(c, run(n))) {
      assert run(m) == WithDraining(run(n), run(m).b.draining);
      assert run(m + 1) == NextState(c, run(m), labels(m));
      k := m + 1;
    }
  }

  lemma {:induction false} Finishes(c: Config, run: nat -> State, labels: nat -> Label,
                                    nextB: nat -> nat, nextH: nat -> nat, n: nat) returns (end: nat)
    requires c.Valid() && Run(c, run, labels) && Fair(labels, nextB, nextH)
    ensures Final(run(end))
    decreases Left(c, run(n))
  {
    hide Carries, Accepted, Decoded;
    var s := run(n);
    if Final(s) {
      end := n;
    } else {
      InvRun(c, run, labels, n);
      SomebodyReady(c, s);
      var k: nat;
      if HelperReady(c, s) {
        k := HelperFalls(c, run, labels, nextB, nextH, n);
      } else if BackendReady(c, s, false) {
        k := BackendFalls(c, run, labels, nextB, nextH, n, false);
      } else {
        k := BackendFalls(c, run, labels, nextB, nextH, n, true);
      }
      end := Finishes(c, run, labels, nextB, nextH, k);
    }
  }

  /**
    Termination: for any capacities of at least one and any finite engine output,
    every fair run reaches the end of the command, with the helper waited for.
   */
  lemma FairRunsEnd(c: Config, run: nat -> State, labels: nat -> Label, nextB: nat -> nat, nextH: nat -> nat)
    requires c.Valid() && Run(c, run, labels) && Fair(labels, nextB, nextH)
    ensures exists n: nat :: Final(run(n)) && run(n).h.pc.Ended? && run(n).b.reaped
  {
    hide Carries, Accepted, Decoded;
    var end := Finishes(c, run, labels, nextB, nextH, 0);
    InvRun(c, run, labels, end);
  }
}
