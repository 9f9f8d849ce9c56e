/** What every step of the protocol keeps, and what that says about whole runs. */
module ProtocolSafety {
  import opened Bytes
  import opened Protocol
  import Codec = Setup

  predicate Polls(p: Phase)
  {
    p.Setup? || p.Receiving? || p.Writing?
  }

  predicate Drains(p: Phase)
  {
    p.Draining? || p.Reaping?
  }

  /** No raise so far. */
  predicate Normal(p: Phase)
  {
    Polls(p) || Drains(p) || p.Returned?
  }

  // ---- Control ----------------------------------------------------------

  predicate Control(c: Config, s: State)
  {
    && (s.b.draining ==> Polls(s.b.phase))
    && (s.b.phase.Setup? ==> s.setup.open && s.data.open && (s.h.pc.ReadSetup? || s.h.pc.Ended?))
    && (s.b.phase.Receiving? ==> c.mode == From && s.data.open && !s.setup.open)
    && (s.b.phase.Writing? ==> c.mode == To && s.data.open && !s.setup.open)
    && (Drains(s.b.phase) ==> s.b.phase.why == Finishing || s.h.pc.Ended?)
    && (Drains(s.b.phase) && s.b.phase.why != Reporting ==> !s.setup.open && !s.data.open)
    && (Normal(s.b.phase) && !s.err.open ==> s.h.pc.Ended?)
    && (s.b.phase.Reaping? || s.b.phase.Returned? ==> !s.err.open)
    && (s.b.phase.Killing? || s.b.phase.Waiting? || Final(s) ==> !s.setup.open && !s.data.open && !s.err.open)
    && (s.b.phase.Waiting? ==> s.h.pc.Ended?)
    && (Final(s) ==> s.b.reaped)
    && (s.b.reaped ==> s.h.pc.Ended? && (s.b.phase.Closing? || Final(s)))
    && (s.b.phase.Returned? ==> s.h.pc == Ended(Exited(0)))
    && (s.h.pc.ReadSetup? || s.h.pc.Ended? || !s.setup.open)
  }

  lemma ControlHelper(c: Config, s: State, ch: Choice)
    requires c.Sized() && Control(c, s)
    ensures Control(c, NextHelper(c, s, ch))
  {
    hide Accepted, Decoded;
    match s.h.pc
    case Calling(_) =>
    case _ =>
  }

  lemma ControlBackend(c: Config, s: State, ch: Choice)
    requires c.Sized() && Control(c, s)
    ensures Control(c, NextBackend(c, s, ch))
  {
  }

  // ---- What a step leaves alone -------------------------------------------

  /** The helper touches neither the backend's memory nor its ends of the channels. */
  predicate HelperFrame(s: State, t: State)
  {
    t.b == s.b && t.setup.open == s.setup.open && t.data.open == s.data.open && t.err.open == s.err.open
  }

  lemma HelperFrames(c: Config, s: State, ch: Choice)
    ensures HelperFrame(s, NextHelper(c, s, ch))
  {
    hide Accepted, Decoded;
  }

  /** The backend touches the helper only by killing it. */
  predicate BackendFrame(s: State, t: State)
  {
    t.h == s.h || (!s.h.pc.Ended? && t.h == s.h.(pc := Ended(Signaled)))
  }

  lemma BackendFrames(c: Config, s: State, ch: Choice)
    ensures BackendFrame(s, NextBackend(c, s, ch))
  {
  }

  // ---- Capacities -------------------------------------------------------

  predicate Bounded(c: Config, s: State)
  {
    |s.setup.bytes| <= c.setupCap && |s.data.bytes| <= c.dataCap && |s.err.bytes| <= c.errCap
  }

  lemma BoundedHelper(c: Config, s: State, ch: Choice)
    requires c.Sized() && Bounded(c, s)
    ensures Bounded(c, NextHelper(c, s, ch))
  {
    hide Accepted, Decoded;
    match s.h.pc
    case Calling(_) =>
    case _ =>
  }

  lemma BoundedBackend(c: Config, s: State, ch: Choice)
    requires c.Sized() && Bounded(c, s)
    ensures Bounded(c, NextBackend(c, s, ch))
  {
    match s.b.phase
    case Setup(_) =>
    case Writing(_) =>
    case _ =>
  }

  // ---- The setup payload ------------------------------------------------

  predicate InEngine(h: HelperPc)
  {
    !h.ReadSetup? && !h.Ended?
  }

  function SetupRest(p: Phase): Bytes
  {
    if p.Setup? then p.rest else []
  }

  /** Read, in the pipe, and still to write: always the beginning of the payload, short of a raise all of it. */
  predicate SetupWire(c: Config, s: State)
  {
    && s.h.setupRead + (s.setup.bytes + SetupRest(s.b.phase)) <= c.setup
    && (s.h.pc.ReadSetup? && Normal(s.b.phase) ==>
          s.h.setupRead + (s.setup.bytes + SetupRest(s.b.phase)) == c.setup)
  }

  /** The helper has begun to act on what it decoded. */
  predicate Acting(h: HelperState)
  {
    InEngine(h.pc) || h.pc == Ended(Exited(0)) || h.produced != [] || h.appended != [] || h.said != []
  }

  /** It acts on the whole payload only. */
  predicate SetupWhole(c: Config, s: State)
  {
    && (s.h.pc.ReadSetup? ==> s.h.produced == [] && s.h.appended == [] && s.h.said == [])
    && (Acting(s.h) ==> s.h.setupRead == c.setup && |c.setup| < Codec.SETUP_MAX)
  }

  predicate SetupData(c: Config, s: State)
  {
    SetupWire(c, s) && SetupWhole(c, s)
  }

  /** A payload cut short, by a raise or otherwise, is not accepted; the whole one is, for what it is. */
  lemma OnlyTheWhole(c: Config, read: Bytes)
    requires c.Valid() && read <= c.setup
    ensures Accepted(c, read) <==> read == c.setup
    ensures Decoded(c, c.setup) == Some(c.mode)
  {
    hide Codec.Parse, Codec.Build;
    Codec.TruncationRejected(c.order, c.command);
    Codec.ParseBuild(c.order, c.command);
  }

  lemma ReadKeepsSetup(c: Config, s: State, n: nat)
    requires SetupWire(c, s) && n <= |s.setup.bytes|
    ensures SetupWire(c, s.(h := s.h.(setupRead := s.h.setupRead + s.setup.bytes[..n]), setup := s.setup.Take(n)))
  {
    var read, bytes, rest := s.h.setupRead, s.setup.bytes, SetupRest(s.b.phase);
    assert (read + bytes[..n]) + (bytes[n..] + rest) == read + (bytes + rest);
  }

  lemma SetupRead(c: Config, s: State, ch: Choice)
    requires c.Valid() && SetupData(c, s) && s.h.pc.ReadSetup?
    ensures SetupData(c, NextHelper(c, s, ch))
  {
    hide Accepted, Decoded, Amount, Carries;
    if |s.h.setupRead| < Codec.SETUP_MAX && s.setup.bytes != [] {
      ReadKeepsSetup(c, s, Amount(ch, Min(|s.setup.bytes|, Codec.SETUP_MAX - |s.h.setupRead|)));
    }
    OnlyTheWhole(c, s.h.setupRead);
  }

  /** Past read_setup, the helper neither reads the pipe nor goes back to it. */
  lemma PastSetup(c: Config, s: State, ch: Choice)
    requires !s.h.pc.ReadSetup?
    ensures var t := NextHelper(c, s, ch);
            && t.setup == s.setup && t.h.setupRead == s.h.setupRead && t.b == s.b && !t.h.pc.ReadSetup?
            && (s.h.pc.Ended? ==> t == s)
  {
    hide Decoded;
    match s.h.pc
    case Calling(_) =>
    case _ =>
  }

  lemma SetupHelper(c: Config, s: State, ch: Choice)
    requires c.Valid() && SetupData(c, s)
    ensures SetupData(c, NextHelper(c, s, ch))
  {
    hide NextHelper, Carries;
    if s.h.pc.ReadSetup? {
      SetupRead(c, s, ch);
    } else {
      PastSetup(c, s, ch);
    }
  }

  lemma SetupSend(c: Config, s: State, ch: Choice, rest: Bytes)
    requires c.Sized() && SetupData(c, s) && s.b.phase == Setup(rest)
    ensures SetupData(c, WriteSetup(c, s, ch, rest))
  {
    if rest != [] && Room(c.setupCap, s.setup.bytes) > 0 {
      var n := Amount(ch, Min(|rest|, Room(c.setupCap, s.setup.bytes)));
      assert (s.setup.bytes + rest[..n]) + rest[n..] == s.setup.bytes + rest;
    }
  }

  lemma SetupBackend(c: Config, s: State, ch: Choice)
    requires c.Sized() && Control(c, s) && SetupData(c, s)
    ensures SetupData(c, NextBackend(c, s, ch))
  {
    hide WriteSetup;
    if s.b.phase.Setup? {
      SetupSend(c, s, ch, s.b.phase.rest);
    }
  }

  /** The command that main decodes is the one it was sent. */
  lemma OpensAsSent(c: Config, s: State)
    requires c.Valid() && SetupData(c, s) && s.h.pc.Opening?
    ensures Decoded(c, s.h.setupRead) == Some(c.mode)
  {
    OnlyTheWhole(c, s.h.setupRead);
  }

  // ---- COPY FROM: from the engine's chunks to recv ------------------------

  /** The Native bytes the engine streams: its chunks up to the first empty one or failure. */
  function StreamOf(script: seq<Event>): Bytes
  {
    if script == [] then []
    else
      match script[0]
      case Say(_) => StreamOf(script[1..])
      case Answer(chunk) => if chunk == [] then [] else chunk + StreamOf(script[1..])
      case Fail(_) => []
  }

  /** The stream ends with the empty chunk rather than with a failure. */
  predicate EndsCleanly(script: seq<Event>)
  {
    script == [] ||
    match script[0]
    case Say(_) => EndsCleanly(script[1..])
    case Answer(chunk) => chunk == [] || EndsCleanly(script[1..])
    case Fail(_) => false
  }

  /** The helper is on its way to exit(1). */
  predicate Failing(h: HelperPc)
  {
    h.Talking? && h.next.Exit?
  }

  /** The helper's program counters in a COPY FROM. */
  predicate FromPc(h: HelperPc)
  {
    && !h.Reading?
    && (h.Calling? ==> h.call.Fetch?)
    && (h.Talking? && h.next.Resume? ==> h.next.call.Fetch?)
    && (Failing(h) ==> h.next.code != 0)
  }

  /** What the engine has still to stream completes what it has streamed. */
  predicate FromEngine(c: Config, s: State)
  {
    && FromPc(s.h.pc)
    && s.h.produced <= StreamOf(c.script)
    && (s.h.pc.ReadSetup? || s.h.pc.Opening? ==> s.h.script == c.script && s.h.produced == [])
    && (!s.h.pc.Ended? && !Failing(s.h.pc) ==>
          s.h.produced + StreamOf(s.h.script) == StreamOf(c.script)
          && EndsCleanly(s.h.script) == EndsCleanly(c.script))
    && (InEngine(s.h.pc) && !s.h.pc.Opening? && !Failing(s.h.pc) ==> c.openError.None?)
    && (s.h.pc == Ended(Exited(0)) ==>
          s.h.produced == StreamOf(c.script) && EndsCleanly(c.script) && c.openError.None?)
  }

  lemma FromFetch(c: Config, s: State, ch: Choice)
    requires FromEngine(c, s) && s.h.pc == Calling(Fetch)
    ensures FromEngine(c, NextHelper(c, s, ch))
  {
    hide Accepted, Decoded;
    if s.h.script != [] && s.h.script[0].Answer? {
      var chunk := s.h.script[0].chunk;
      assert (s.h.produced + chunk) + StreamOf(s.h.script[1..]) == s.h.produced + (chunk + StreamOf(s.h.script[1..]));
    }
  }

  lemma FromEngineHelper(c: Config, s: State, ch: Choice)
    requires c.mode == From && FromEngine(c, s)
    requires s.h.pc.Opening? ==> Decoded(c, s.h.setupRead) == Some(From)
    ensures FromEngine(c, NextHelper(c, s, ch))
  {
    hide Accepted, Decoded;
    match s.h.pc
    case Calling(_) => FromFetch(c, s, ch);
    case Talking(_, _) => FromEngineTalk(c, s, ch);
    case _ =>
  }

  lemma FromEngineTalk(c: Config, s: State, ch: Choice)
    requires FromEngine(c, s) && s.h.pc.Talking?
    ensures FromEngine(c, NextHelper(c, s, ch))
  {
    hide Accepted, Decoded;
  }

  lemma FromEngineBackend(c: Config, s: State, t: State)
    requires FromEngine(c, s) && BackendFrame(s, t)
    ensures FromEngine(c, t)
  {
  }

  function Unsent(h: HelperPc): Bytes
  {
    if h.Sending? then h.data else []
  }

  /** Nothing is lost between the engine and recv, except what a dying helper still held. */
  predicate FromWire(s: State)
  {
    && FromPc(s.h.pc)
    && s.b.received + s.data.bytes <= s.h.produced
    && (!s.h.pc.Ended? ==> s.b.received + s.data.bytes + Unsent(s.h.pc) == s.h.produced)
    && (s.h.pc == Ended(Exited(0)) ==> s.b.received + s.data.bytes == s.h.produced)
    && ((Drains(s.b.phase) && s.b.phase.why == AtEof) || s.b.phase == Returned(true) ==> s.data.bytes == [])
  }

  lemma SentMore(received: Bytes, bytes: Bytes, chunk: Bytes, n: nat, produced: Bytes)
    requires n <= |chunk| && received + bytes + chunk == produced
    ensures received + (bytes + chunk[..n]) + chunk[n..] == produced && received + (bytes + chunk[..n]) <= produced
  {
    assert chunk == chunk[..n] + chunk[n..];
    assert received + (bytes + chunk[..n]) + chunk[n..] == received + bytes + (chunk[..n] + chunk[n..]);
  }

  lemma FromWireSend(c: Config, s: State, ch: Choice)
    requires c.Sized() && Control(c, s) && FromWire(s) && s.h.pc.Sending?
    ensures FromWire(NextHelper(c, s, ch))
  {
    var chunk := s.h.pc.data;
    if chunk != [] && Room(c.dataCap, s.data.bytes) > 0 {
      SentMore(s.b.received, s.data.bytes, chunk,
               Amount(ch, Min(|chunk|, Room(c.dataCap, s.data.bytes))), s.h.produced);
    }
    hide Accepted, Decoded, Amount;
  }

  lemma FromWireFetch(c: Config, s: State, ch: Choice)
    requires FromWire(s) && s.h.pc.Calling?
    ensures FromWire(NextHelper(c, s, ch))
  {
    hide Accepted, Decoded;
  }

  lemma FromWireHelper(c: Config, s: State, ch: Choice)
    requires c.Sized() && c.mode == From && Control(c, s) && FromWire(s)
    requires s.h.pc.Opening? ==> Decoded(c, s.h.setupRead) == Some(From)
    ensures FromWire(NextHelper(c, s, ch))
  {
    hide Accepted, Decoded;
    match s.h.pc
    case Sending(_) => FromWireSend(c, s, ch);
    case Calling(_) => FromWireFetch(c, s, ch);
    case _ =>
  }

  lemma FromWireBackend(c: Config, s: State, ch: Choice)
    requires c.Sized() && c.mode == From && Control(c, s) && FromWire(s)
    ensures FromWire(NextBackend(c, s, ch))
  {
    var t := NextBackend(c, s, ch);
    assert t.b.received + t.data.bytes == s.b.received + s.data.bytes;
  }

  // ---- COPY TO: from chdb_helper_write to the engine's appends ------------

  function Buffered(h: HelperPc): Bytes
  {
    if h.Calling? && h.call.Append? then h.call.buf
    else if h.Talking? && h.next.Resume? && h.next.call.Append? then h.next.call.buf
    else []
  }

  predicate AtDone(h: HelperPc)
  {
    (h.Calling? && h.call.Done?) || (h.Talking? && h.next.Resume? && h.next.call.Done?)
  }

  predicate ToCall(call: Call)
  {
    call.Done? || (call.Append? && call.buf != [])
  }

  predicate ToPc(h: HelperPc)
  {
    && !h.Sending?
    && (h.Calling? ==> ToCall(h.call))
    && (h.Talking? && h.next.Resume? ==> ToCall(h.next.call))
    && (Failing(h) ==> h.next.code != 0)
  }

  /** Nothing is lost between the socket and the engine, except what a dying helper held. */
  predicate ToWire(s: State)
  {
    && ToPc(s.h.pc)
    && s.h.appended <= s.b.passed
    && (!s.h.pc.Ended? && !Failing(s.h.pc) ==>
          s.h.appended + Buffered(s.h.pc) + s.data.bytes == s.b.passed)
    && (AtDone(s.h.pc) ==> s.data.bytes == [] && !s.data.open)
    && (s.h.pc == Ended(Exited(0)) ==> s.h.appended == s.b.passed && s.h.finished)
  }

  lemma ToWireRead(c: Config, s: State, ch: Choice)
    requires ToWire(s) && s.h.pc.Reading?
    ensures ToWire(NextHelper(c, s, ch))
  {
    hide Accepted, Decoded;
  }

  lemma ToWireCall(c: Config, s: State, ch: Choice)
    requires ToWire(s) && s.h.pc.Calling?
    ensures ToWire(NextHelper(c, s, ch))
  {
    hide Accepted, Decoded;
  }

  lemma ToWireTalk(c: Config, s: State, ch: Choice)
    requires ToWire(s) && s.h.pc.Talking?
    ensures ToWire(NextHelper(c, s, ch))
  {
    hide Accepted, Decoded;
  }

  lemma ToWireHelper(c: Config, s: State, ch: Choice)
    requires c.Sized() && c.mode == To && ToWire(s)
    requires s.h.pc.Opening? ==> Decoded(c, s.h.setupRead) == Some(To)
    ensures ToWire(NextHelper(c, s, ch))
  {
    hide Accepted, Decoded;
    match s.h.pc
    case Reading => ToWireRead(c, s, ch);
    case Calling(_) => ToWireCall(c, s, ch);
    case Talking(_, _) => ToWireTalk(c, s, ch);
    case _ =>
  }

  lemma ToWireBackend(c: Config, s: State, ch: Choice)
    requires c.Sized() && c.mode == To && Control(c, s) && ToWire(s)
    ensures ToWire(NextBackend(c, s, ch))
  {
    match s.b.phase
    case Writing(_) =>
    case _ =>
  }

  /** The bytes given to chdb_helper_write are those sent, the current block, and the rest. */
  predicate ToCaller(c: Config, s: State)
  {
    && s.b.passed <= Flatten(c.blocks)
    && (s.b.phase.Setup? ==> s.b.passed == [] && s.b.toSend == c.blocks)
    && (s.b.phase.Writing? ==> s.b.passed + (s.b.phase.rest + Flatten(s.b.toSend)) == Flatten(c.blocks))
    && ((Drains(s.b.phase) && s.b.phase.why == Finishing) || s.b.phase.Returned? ==> s.b.passed == Flatten(c.blocks))
    && (Drains(s.b.phase) ==> s.b.phase.why != AtEof)
  }

  lemma ToCallerHelper(c: Config, s: State, t: State)
    requires ToCaller(c, s) && HelperFrame(s, t)
    ensures ToCaller(c, t)
  {
  }

  lemma WrittenMore(passed: Bytes, rest: Bytes, n: nat, more: Bytes, all: Bytes)
    requires n <= |rest| && passed + (rest + more) == all
    ensures (passed + rest[..n]) + (rest[n..] + more) == all && passed + rest[..n] <= all
  {
    assert rest == rest[..n] + rest[n..];
    assert (passed + rest[..n]) + (rest[n..] + more) == passed + (rest + more);
  }

  lemma FlattenHead(blocks: seq<Bytes>)
    requires blocks != []
    ensures Flatten(blocks) == blocks[0] + Flatten(blocks[1..])
  {
  }

  lemma ToCallerPut(c: Config, s: State, ch: Choice)
    requires c.Sized() && ToCaller(c, s) && s.b.phase.Writing?
    ensures ToCaller(c, Write(c, s, ch, s.b.phase.rest))
  {
    var rest := s.b.phase.rest;
    assert Flatten<byte>([]) == [];
    if rest == [] {
      if s.b.toSend != [] {
        FlattenHead(s.b.toSend);
      }
    } else if !s.h.pc.Ended? && !Refused(ch, c.dataCap, s.data.bytes) {
      hide Flatten, Amount, Refused;
      WrittenMore(s.b.passed, rest, Amount(ch, Min(|rest|, Room(c.dataCap, s.data.bytes))),
                  Flatten(s.b.toSend), Flatten(c.blocks));
    }
  }

  lemma ToCallerWrite(c: Config, s: State, ch: Choice)
    requires c.Sized() && ToCaller(c, s) && s.b.phase.Writing?
    ensures ToCaller(c, NextBackend(c, s, ch))
  {
    hide Write, Flatten;
    ToCallerPut(c, s, ch);
  }

  lemma ToCallerBackend(c: Config, s: State, ch: Choice)
    requires c.Sized() && c.mode == To && Control(c, s) && ToCaller(c, s)
    ensures ToCaller(c, NextBackend(c, s, ch))
  {
    match s.b.phase
    case Writing(_) => ToCallerWrite(c, s, ch);
    case _ =>
  }

  // ---- Error text -------------------------------------------------------

  function Unspoken(h: HelperPc): Bytes
  {
    if h.Talking? then h.text else []
  }

  /** Short of a crash or a raise, all the helper was given to say reaches the backend. */
  predicate ErrWire(s: State)
  {
    && (!s.h.crashed && Normal(s.b.phase) ==>
          s.b.heard + s.err.bytes + Unspoken(s.h.pc) == s.h.said)
    && (!s.h.crashed && Normal(s.b.phase) && !s.err.open ==> s.err.bytes == [])
    && (!s.h.crashed && s.b.reaped && s.b.phase.Closing? ==> s.b.heard == s.h.said)
  }

  lemma ErrWireTalk(c: Config, s: State, ch: Choice)
    requires c.Sized() && Control(c, s) && ErrWire(s) && s.h.pc.Talking?
    ensures ErrWire(NextHelper(c, s, ch))
  {
    hide Accepted, Decoded;
  }

  lemma ErrWireCall(c: Config, s: State, ch: Choice)
    requires Control(c, s) && ErrWire(s) && s.h.pc.Calling?
    ensures ErrWire(NextHelper(c, s, ch))
  {
    hide Accepted, Decoded;
  }

  lemma ErrWireHelper(c: Config, s: State, ch: Choice)
    requires c.Sized() && Control(c, s) && ErrWire(s)
    ensures ErrWire(NextHelper(c, s, ch))
  {
    hide Accepted, Decoded;
    match s.h.pc
    case Talking(_, _) => ErrWireTalk(c, s, ch);
    case Calling(_) => ErrWireCall(c, s, ch);
    case _ =>
  }

  lemma ErrWireBackend(c: Config, s: State, ch: Choice)
    requires c.Sized() && Control(c, s) && ErrWire(s)
    ensures ErrWire(NextBackend(c, s, ch))
  {
  }

  /** Everything the engine says up to the end of its stream or its failure. */
  function TextOf(script: seq<Event>): Bytes
  {
    if script == [] then []
    else
      match script[0]
      case Say(text) => text + TextOf(script[1..])
      case Answer(chunk) => if chunk == [] then [] else TextOf(script[1..])
      case Fail(text) => text
  }

  /** A payload over the helper's limit is refused before the engine has a say. */
  function Speech(c: Config): Bytes
  {
    if Codec.SETUP_MAX <= |c.setup| then [] else
    match c.openError
    case Some(text) => text
    case None => TextOf(c.script)
  }

  predicate FromSpeech(c: Config, s: State)
  {
    && FromPc(s.h.pc)
    && (s.h.pc.ReadSetup? || s.h.pc.Opening? ==> s.h.said == [] && s.h.script == c.script)
    && (InEngine(s.h.pc) && !s.h.pc.Opening? && !Failing(s.h.pc) ==>
          s.h.said + TextOf(s.h.script) == Speech(c))
    && (Failing(s.h.pc) ==> s.h.said == Speech(c) && s.h.pc.next.code == 1)
    && (s.h.pc == Ended(Exited(1)) && !s.h.crashed && (Normal(s.b.phase) || (s.b.phase.Closing? && s.b.reaped)) ==>
          s.h.said == Speech(c))
  }

  lemma FromSpeechCall(c: Config, s: State, ch: Choice)
    requires FromSpeech(c, s) && s.h.pc.Calling?
    ensures FromSpeech(c, NextHelper(c, s, ch))
  {
    hide Accepted, Decoded;
    if s.h.script != [] && s.h.script[0].Say? {
      var text := s.h.script[0].text;
      assert (s.h.said + text) + TextOf(s.h.script[1..]) == s.h.said + (text + TextOf(s.h.script[1..]));
    }
  }

  lemma FromSpeechTalk(c: Config, s: State, ch: Choice)
    requires FromSpeech(c, s) && s.h.pc.Talking?
    ensures FromSpeech(c, NextHelper(c, s, ch))
  {
    hide Accepted, Decoded;
  }

  /** Short of a raise the pipe ends only after the whole payload, which is accepted. */
  lemma WholeAtEof(c: Config, s: State)
    requires c.Valid() && Control(c, s) && SetupData(c, s) && s.h.pc.ReadSetup? && Normal(s.b.phase)
    requires s.setup.bytes == [] && !s.setup.open
    ensures Accepted(c, s.h.setupRead)
  {
    hide Accepted, Decoded, Carries;
    assert s.h.setupRead + ([] + []) == s.h.setupRead;
    OnlyTheWhole(c, s.h.setupRead);
  }

  lemma FromSpeechSetup(c: Config, s: State, ch: Choice)
    requires c.Valid() && c.mode == From && Control(c, s) && SetupData(c, s) && FromSpeech(c, s) && s.h.pc.ReadSetup?
    ensures FromSpeech(c, NextHelper(c, s, ch))
  {
    hide Accepted, Decoded, Carries, Amount;
    if s.setup.bytes == [] && !s.setup.open && Normal(s.b.phase) {
      WholeAtEof(c, s);
    }
  }

  lemma FromSpeechHelper(c: Config, s: State, ch: Choice)
    requires c.Valid() && c.mode == From && Control(c, s) && SetupData(c, s) && FromSpeech(c, s)
    requires s.h.pc.Opening? ==> Decoded(c, s.h.setupRead) == Some(From)
    ensures FromSpeech(c, NextHelper(c, s, ch))
  {
    hide Accepted, Decoded, Carries, TakeSetup;
    match s.h.pc
    case Calling(_) => FromSpeechCall(c, s, ch);
    case Talking(_, _) => FromSpeechTalk(c, s, ch);
    case ReadSetup => FromSpeechSetup(c, s, ch);
    case _ =>
  }

  lemma FromSpeechBackend(c: Config, s: State, ch: Choice)
    requires Control(c, s) && FromSpeech(c, s)
    ensures FromSpeech(c, NextBackend(c, s, ch))
  {
    BackendFrames(c, s, ch);
  }

  // ---- All of it --------------------------------------------------------

  predicate Inv(c: Config, s: State)
  {
    && Control(c, s) && Bounded(c, s) && SetupData(c, s) && ErrWire(s)
    && (c.mode == From ==> FromEngine(c, s) && FromWire(s) && FromSpeech(c, s))
    && (c.mode == To ==> ToWire(s) && ToCaller(c, s))
  }

  lemma InvInit(c: Config)
    requires c.Valid()
    ensures Inv(c, Init(c))
  {
    hide Carries;
  }

  lemma InvHelper(c: Config, s: State, ch: Choice)
    requires c.Valid() && Inv(c, s)
    ensures Inv(c, NextHelper(c, s, ch))
  {
    hide Carries, Accepted, Decoded;
    var t := NextHelper(c, s, ch);
    HelperFrames(c, s, ch);
    ControlHelper(c, s, ch);
    BoundedHelper(c, s, ch);
    SetupHelper(c, s, ch);
    if s.h.pc.Opening? {
      OpensAsSent(c, s);
    }
    ErrWireHelper(c, s, ch);
    match c.mode
    case From =>
      FromEngineHelper(c, s, ch);
      FromWireHelper(c, s, ch);
      FromSpeechHelper(c, s, ch);
    case To =>
      ToWireHelper(c, s, ch);
      ToCallerHelper(c, s, t);
  }

  lemma InvBackend(c: Config, s: State, ch: Choice)
    requires c.Valid() && Inv(c, s)
    ensures Inv(c, NextBackend(c, s, ch))
  {
    hide Carries, Accepted, Decoded;
    var t := NextBackend(c, s, ch);
    BackendFrames(c, s, ch);
    ControlBackend(c, s, ch);
    BoundedBackend(c, s, ch);
    SetupBackend(c, s, ch);
    ErrWireBackend(c, s, ch);
    match c.mode
    case From =>
      FromEngineBackend(c, s, t);
      FromWireBackend(c, s, ch);
      FromSpeechBackend(c, s, ch);
    case To =>
      ToWireBackend(c, s, ch);
      ToCallerBackend(c, s, ch);
  }

  lemma InvCrash(c: Config, s: State, status: Status)
    requires c.Valid() && Inv(c, s)
    ensures Inv(c, NextCrash(s, status))
  {
  }

  lemma InvStep(c: Config, s: State, l: Label)
    requires c.Valid() && Inv(c, s)
    ensures Inv(c, NextState(c, s, l))
  {
    hide Carries, Accepted, Decoded;
    match l
    case Backend(ch) => InvBackend(c, s, ch);
    case Helper(ch) => InvHelper(c, s, ch);
    case Crash(status) => InvCrash(c, s, status);
  }

  lemma {:induction false} InvExec(c: Config, s: State, labels: seq<Label>)
    requires c.Valid() && Inv(c, s)
    ensures Inv(c, Exec(c, s, labels))
  {
    hide Carries, Accepted, Decoded;
    if labels != [] {
      var front := labels[..|labels| - 1];
      InvExec(c, s, front);
      InvStep(c, Exec(c, s, front), labels[|labels| - 1]);
    }
  }

  // ---- Theorems over every run, crashes and raises included ---------------

  /**
    What recv has returned is a prefix of the engine's stream; once it has returned
    zero it is all of it, the stream ended without a failure, and the helper exited 0.
   */
  lemma CopyFromIntegrity(c: Config, labels: seq<Label>)
    requires c.Valid() && c.mode == From
    ensures var s := Exec(c, Init(c), labels);
            && s.b.received <= StreamOf(c.script)
            && (s.b.phase == Returned(true) ==>
                  && s.b.received == StreamOf(c.script)
                  && EndsCleanly(c.script) && c.openError.None?
                  && s.h.pc == Ended(Exited(0)))
  {
    InvInit(c);
    InvExec(c, Init(c), labels);
  }

  /**
    The engine has taken a prefix of the bytes given to chdb_helper_write; once
    chdb_helper_finish has returned it has taken all of them, and closing the insert
    stream reported no error.
   */
  lemma CopyToIntegrity(c: Config, labels: seq<Label>)
    requires c.Valid() && c.mode == To
    ensures var s := Exec(c, Init(c), labels);
            && s.h.appended <= Flatten(c.blocks)
            && (s.b.phase.Returned? ==>
                  s.h.appended == Flatten(c.blocks) && s.h.finished && s.h.pc == Ended(Exited(0)))
  {
    InvInit(c);
    InvExec(c, Init(c), labels);
    var s := Exec(c, Init(c), labels);
    assert s.h.appended <= s.b.passed <= Flatten(c.blocks);
  }

  /**
    The helper, which judges by its parse of the bytes it has read alone, never acts on
    a payload cut short, whatever raise or crash cut it; what it acts on is the command
    that was sent.
   */
  lemma SetupIntegrity(c: Config, labels: seq<Label>)
    requires c.Valid()
    ensures var s := Exec(c, Init(c), labels);
            && s.h.setupRead <= c.setup
            && (Acting(s.h) ==>
                  && s.h.setupRead == Codec.Build(c.order, c.command) && |s.h.setupRead| < Codec.SETUP_MAX
                  && Codec.Parse(c.order, s.h.setupRead) == Some((Codec.Kept(c.command), []))
                  && (Codec.Fits(c.command) ==> Codec.Kept(c.command) == c.command))
  {
    hide Codec.Parse, Codec.Build, Codec.Kept;
    InvInit(c);
    InvExec(c, Init(c), labels);
    var s := Exec(c, Init(c), labels);
    ReadIsPrefix(c, s);
    Codec.ParseWhole(c.order, c.command);
    Codec.RoundTrip(c.order, c.command);
  }

  lemma ReadIsPrefix(c: Config, s: State)
    requires SetupWire(c, s)
    ensures s.h.setupRead <= c.setup
  {
  }

  /**
    A command that was seen to its end, well or badly, without the helper being
    killed has read every byte the helper wrote to its error channel.
   */
  lemma ErrorTextComplete(c: Config, labels: seq<Label>)
    requires c.Valid()
    ensures var s := Exec(c, Init(c), labels);
            !s.h.crashed && (s.b.phase.Returned? || (s.b.phase.Closing? && s.b.reaped)) ==>
              && s.b.heard == s.h.said
              && (c.mode == From && s.h.pc == Ended(Exited(1)) ==> s.b.heard == Speech(c))
  {
    InvInit(c);
    InvExec(c, Init(c), labels);
  }

  /** However a command ends, the helper is dead and waited for, and no channel end is held. */
  lemma NothingLeftBehind(c: Config, labels: seq<Label>)
    requires c.Valid()
    ensures var s := Exec(c, Init(c), labels);
            && (Final(s) ==> s.h.pc.Ended? && s.b.reaped && !s.setup.open && !s.data.open && !s.err.open)
            && (s.b.phase.Killing? ==> !s.b.reaped)
            && |s.setup.bytes| <= c.setupCap && |s.data.bytes| <= c.dataCap && |s.err.bytes| <= c.errCap
  {
    InvInit(c);
    InvExec(c, Init(c), labels);
  }
}
