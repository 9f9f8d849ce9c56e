/**
  The backend and its chdb_helper process as one transition system.

  A step is taken by the backend, by the helper, or by whatever kills the helper.
  Its label carries everything the program does not decide: how many bytes a
  read() or write() moves, whether a full-enough channel refuses a write, whether
  a signal interrupts the call, whether the backend raises. Once the label is
  known the next state is a function of the state, so quantifying over labels
  quantifies over every interleaving.
 */
module Protocol {
  import opened Bytes
  import Codec = Setup

  /** From is COPY FROM (and DESCRIBE): data flows to the backend. To is COPY TO. */
  datatype Mode = From | To

  /** What the engine does at its next call: talk on stderr, answer, or fail. */
  datatype Event = Say(text: Bytes) | Answer(chunk: Bytes) | Fail(text: Bytes)

  datatype Status = Exited(code: nat) | Signaled

  /** One run: the channel capacities, the backend's input, and the engine as an oracle. */
  datatype Config = Config(
    mode: Mode, setupCap: nat, dataCap: nat, errCap: nat,
    order: Codec.Order, command: Codec.Command,
    setup: Bytes,            // the payload that build_setup made of the command
    blocks: seq<Bytes>,
    openError: Option<Bytes>, script: seq<Event>)
  {
    predicate Sized() { 1 <= setupCap && 1 <= dataCap && 1 <= errCap }

    predicate Valid() { Sized() && Carries(this) }
  }

  /** The payload is that of the command, which is one of this mode and has a count that fits. */
  predicate Carries(c: Config)
  {
    && CommandMode(c.command.cmd) == Some(c.mode)
    && |c.command.params| < 0x1_0000
    && c.setup == Codec.Build(c.order, c.command)
  }

  /** The direction in which data flows for CHDB_CMD_INSERT, SELECT and DESCRIBE. */
  function CommandMode(cmd: byte): Option<Mode>
  {
    if cmd == 73 then Some(To) else if cmd == 83 || cmd == 68 then Some(From) else None
  }

  /** An engine call the helper is about to make. */
  datatype Call = Fetch | Append(buf: Bytes) | Done

  datatype Next = Resume(call: Call) | Exit(code: nat)

  /** Where the helper is: each value is one blocking or engine call. */
  datatype HelperPc =
    | ReadSetup
    | Opening
    | Calling(call: Call)
    | Talking(text: Bytes, next: Next)
    | Sending(data: Bytes)
    | Reading
    | Ended(status: Status)

  /** Why drain_and_reap was entered. */
  datatype Why = AtEof | Finishing | Reporting

  /** Where the backend is. Closing, Killing and Waiting are stop_helper after a raise. */
  datatype Phase =
    | Setup(rest: Bytes)
    | Receiving
    | Writing(rest: Bytes)
    | Draining(why: Why)
    | Reaping(why: Why)
    | Closing | Killing | Waiting
    | Returned(eof: bool) | Raised

  /** A channel: whether the backend still holds its end, and the bytes in flight. */
  datatype Channel = Channel(open: bool, bytes: Bytes)
  {
    function Put(sent: Bytes): Channel { this.(bytes := bytes + sent) }
    function Take(n: nat): Channel requires n <= |bytes| { this.(bytes := bytes[n..]) }
    function Close(): Channel { this.(open := false) }
  }

  /** The backend's memory, with the bytes that have crossed it. */
  datatype BackendState = BackendState(
    phase: Phase,
    draining: bool,          // inside drain_err after a would-block
    toSend: seq<Bytes>,      // blocks chdb_helper_write has not been given yet
    reaped: bool,
    received: Bytes,         // returned by chdb_helper_recv
    passed: Bytes,           // written to the data socket
    heard: Bytes)            // read from the error pipe

  /** The helper's memory, with the bytes that have crossed it. */
  datatype HelperState = HelperState(
    pc: HelperPc,
    script: seq<Event>,
    crashed: bool,
    setupRead: Bytes,
    produced: Bytes,         // chunks the engine has handed out
    appended: Bytes,         // bytes the engine has taken
    finished: bool,          // chdb_stream_done reported no error
    said: Bytes)             // given to stderr

  datatype State = State(b: BackendState, h: HelperState, setup: Channel, data: Channel, err: Channel)

  /** The choices the system makes rather than the program. */
  datatype Choice = Choice(
    count: nat, refuse: bool, interrupt: bool, raises: bool, stops: bool, other: bool)

  datatype Label = Backend(choice: Choice) | Helper(choice: Choice) | Crash(status: Status)

  function Init(c: Config): State
  {
    State(BackendState(Setup(c.setup), false, c.blocks, false, [], [], []),
          HelperState(ReadSetup, c.script, false, [], [], [], false, []),
          Channel(true, []), Channel(true, []), Channel(true, []))
  }

  /** How many of `most` bytes the call moves: at least one, never more. */
  function Amount(ch: Choice, most: nat): (n: nat)
    requires 1 <= most
    ensures 1 <= n <= most
  {
    if 1 <= ch.count <= most then ch.count else most
  }

  function Room(cap: nat, chan: Bytes): int
  {
    cap - |chan|
  }

  /**
    A channel holding bytes may refuse a write even with some room left, as a pipe
    does for a write of at most PIPE_BUF bytes; an empty one takes at least a byte.
   */
  predicate Refused(ch: Choice, cap: nat, chan: Bytes)
  {
    Room(cap, chan) <= 0 || (ch.refuse && chan != [])
  }

  // ---- The helper -------------------------------------------------------

  function Proceed(next: Next): HelperPc
  {
    match next
    case Resume(call) => Calling(call)
    case Exit(code) => Ended(Exited(code))
  }

  /** The engine answers `call`. */
  function Answered(h: HelperState, call: Call, chunk: Bytes): HelperState
  {
    match call
    case Fetch =>
      if chunk == [] then h.(pc := Ended(Exited(0)))
      else h.(pc := Sending(chunk), produced := h.produced + chunk)
    case Append(buf) => h.(pc := Reading, appended := h.appended + buf)
    case Done => h.(pc := Ended(Exited(0)), finished := true)
  }

  function Talk(h: HelperState, text: Bytes, next: Next): HelperState
  {
    h.(pc := Talking(text, next), said := h.said + text)
  }

  function CallEngine(h: HelperState, call: Call): HelperState
  {
    if h.script == [] then Answered(h, call, [])
    else
      var h1 := h.(script := h.script[1..]);
      match h.script[0]
      case Say(text) => Talk(h1, text, Resume(call))
      case Answer(chunk) => Answered(h1, call, chunk)
      case Fail(text) => Talk(h1, text, Exit(1))
  }

  /** Whether main's take sequence gets through the bytes read. */
  predicate Accepted(c: Config, read: Bytes)
  {
    Codec.Parse(c.order, read).Some?
  }

  /** What main's switch makes of the command it decoded. */
  function Decoded(c: Config, read: Bytes): Option<Mode>
  {
    match Codec.Parse(c.order, read)
    case None => None
    case Some((command, _)) => CommandMode(command.cmd)
  }

  /** Connection, session settings and query start; then the first call of the command's loop. */
  function Open(c: Config, h: HelperState): HelperState
  {
    match c.openError
    case Some(text) => Talk(h, text, Exit(1))
    case None =>
      match Decoded(c, h.setupRead)
      case Some(From) => h.(pc := Calling(Fetch))
      case Some(To) => h.(pc := Reading)
      case None => h.(pc := Ended(Exited(1)))
  }

  /** read_setup up to EOF or the size limit, then the parse: the helper knows only the bytes it read. */
  function TakeSetup(c: Config, s: State, ch: Choice): State
  {
    if Codec.SETUP_MAX <= |s.h.setupRead| then s.(h := s.h.(pc := Ended(Exited(1))))
    else if s.setup.bytes != [] then
      var n := Amount(ch, Min(|s.setup.bytes|, Codec.SETUP_MAX - |s.h.setupRead|));
      s.(h := s.h.(setupRead := s.h.setupRead + s.setup.bytes[..n]), setup := s.setup.Take(n))
    else if s.setup.open then s
    else s.(h := s.h.(pc := if Accepted(c, s.h.setupRead) then Opening else Ended(Exited(1))))
  }

  /** A blocking write to stderr. */
  function WriteErr(c: Config, s: State, ch: Choice, text: Bytes, next: Next): State
  {
    if text == [] then s.(h := s.h.(pc := Proceed(next)))
    else if !s.err.open then s.(h := s.h.(pc := if ch.other then Ended(Signaled) else Talking([], next)))
    else if Refused(ch, c.errCap, s.err.bytes) then s
    else
      var n := Amount(ch, Min(|text|, Room(c.errCap, s.err.bytes)));
      s.(h := s.h.(pc := Talking(text[n..], next)), err := s.err.Put(text[..n]))
  }

  /** A blocking write of the rest of a chunk to stdout. */
  function WriteChunk(c: Config, s: State, ch: Choice, chunk: Bytes): State
  {
    if chunk == [] then s.(h := s.h.(pc := Calling(Fetch)))
    else if !s.data.open then s.(h := s.h.(pc := Ended(if ch.other then Signaled else Exited(2))))
    else if Refused(ch, c.dataCap, s.data.bytes) then s
    else
      var n := Amount(ch, Min(|chunk|, Room(c.dataCap, s.data.bytes)));
      s.(h := s.h.(pc := Sending(chunk[n..])), data := s.data.Put(chunk[..n]))
  }

  /** A blocking read of stdin. */
  function ReadData(s: State, ch: Choice): State
  {
    if s.data.bytes != [] then
      var n := Amount(ch, |s.data.bytes|);
      s.(h := s.h.(pc := Calling(Append(s.data.bytes[..n]))), data := s.data.Take(n))
    else if s.data.open then s
    else s.(h := s.h.(pc := Calling(Done)))
  }

  function NextHelper(c: Config, s: State, ch: Choice): State
  {
    if ch.interrupt then s else
    match s.h.pc
    case Ended(_) => s
    case ReadSetup => TakeSetup(c, s, ch)
    case Opening => s.(h := Open(c, s.h))
    case Calling(call) => s.(h := CallEngine(s.h, call))
    case Talking(text, next) => WriteErr(c, s, ch, text, next)
    case Sending(chunk) => WriteChunk(c, s, ch, chunk)
    case Reading => ReadData(s, ch)
  }

  // ---- The backend ------------------------------------------------------

  /** drain_err takes what the error pipe holds. */
  function ReadErr(s: State, ch: Choice): State
    requires s.err.bytes != []
  {
    var n := Amount(ch, |s.err.bytes|);
    s.(b := s.b.(heard := s.b.heard + s.err.bytes[..n]), err := s.err.Take(n))
  }

  /** One read of drain_err's loop: EOF closes the pipe, EAGAIN leaves the loop. */
  function DrainStep(s: State, ch: Choice): State
  {
    if !s.err.open then s.(b := s.b.(draining := false))
    else if s.err.bytes != [] then ReadErr(s, ch)
    else if s.h.pc.Ended? then s.(b := s.b.(draining := false), err := s.err.Close())
    else s.(b := s.b.(draining := false))
  }

  /** The phases that run CHECK_FOR_INTERRUPTS, or whose caller may raise. */
  predicate MayRaise(p: Phase)
  {
    p.Setup? || p.Receiving? || p.Writing? || p.Draining?
  }

  /** write_setup. */
  function WriteSetup(c: Config, s: State, ch: Choice, rest: Bytes): State
  {
    if rest == [] then
      s.(b := s.b.(phase := if c.mode == From then Receiving else Writing([])), setup := s.setup.Close())
    else if s.h.pc.Ended? then s.(b := s.b.(phase := Draining(Reporting)))
    else if Refused(ch, c.setupCap, s.setup.bytes) then s.(b := s.b.(draining := true))
    else
      var n := Amount(ch, Min(|rest|, Room(c.setupCap, s.setup.bytes)));
      s.(b := s.b.(phase := Setup(rest[n..])), setup := s.setup.Put(rest[..n]))
  }

  /** chdb_helper_recv; the caller may stop early, and a read of a dead peer may fail. */
  function Recv(s: State, ch: Choice): State
  {
    if ch.stops then s.(b := s.b.(phase := Draining(Finishing)), data := s.data.Close())
    else if s.data.bytes != [] then
      var n := Amount(ch, |s.data.bytes|);
      s.(b := s.b.(received := s.b.received + s.data.bytes[..n]), data := s.data.Take(n))
    else if !s.h.pc.Ended? then s.(b := s.b.(draining := true))
    else if ch.other then s.(b := s.b.(phase := Draining(Reporting)))
    else s.(b := s.b.(phase := Draining(AtEof)), data := s.data.Close())
  }

  /** chdb_helper_write over the blocks, then chdb_helper_finish. */
  function Write(c: Config, s: State, ch: Choice, rest: Bytes): State
  {
    if rest == [] then
      if s.b.toSend == [] then s.(b := s.b.(phase := Draining(Finishing)), data := s.data.Close())
      else s.(b := s.b.(phase := Writing(s.b.toSend[0]), toSend := s.b.toSend[1..]))
    else if s.h.pc.Ended? then s.(b := s.b.(phase := Draining(Reporting)))
    else if Refused(ch, c.dataCap, s.data.bytes) then s.(b := s.b.(draining := true))
    else
      var n := Amount(ch, Min(|rest|, Room(c.dataCap, s.data.bytes)));
      s.(b := s.b.(phase := Writing(rest[n..]), passed := s.b.passed + rest[..n]), data := s.data.Put(rest[..n]))
  }

  /** drain_and_reap, up to the point where the error pipe has ended. */
  function Drain(s: State, ch: Choice, why: Why): State
  {
    if !s.err.open then s.(b := s.b.(phase := Reaping(why)))
    else if s.err.bytes != [] then ReadErr(s, ch)
    else if s.h.pc.Ended? then s.(err := s.err.Close())
    else s
  }

  /** waitpid; `other` is a waitpid that gave no status, which counts as failure. */
  function Reap(s: State, ch: Choice, why: Why): State
  {
    if !s.h.pc.Ended? then s
    else
      var success := s.h.pc.status == Exited(0) && !ch.other && why != Reporting;
      s.(b := s.b.(reaped := true, phase := if success then Returned(why == AtEof) else Closing))
  }

  /** stop_helper, run after a raise. */
  function Stop(s: State): State
  {
    match s.b.phase
    case Closing =>
      State(s.b.(phase := if s.b.reaped then Raised else Killing), s.h,
            s.setup.Close(), s.data.Close(), s.err.Close())
    case Killing =>
      s.(b := s.b.(phase := Waiting), h := if s.h.pc.Ended? then s.h else s.h.(pc := Ended(Signaled)))
    case Waiting => if s.h.pc.Ended? then s.(b := s.b.(reaped := true, phase := Raised)) else s
    case _ => s
  }

  function NextBackend(c: Config, s: State, ch: Choice): State
  {
    if ch.interrupt then s
    else if s.b.draining then DrainStep(s, ch)
    else if ch.raises && MayRaise(s.b.phase) then s.(b := s.b.(phase := Closing))
    else
      match s.b.phase
      case Setup(rest) => WriteSetup(c, s, ch, rest)
      case Receiving => Recv(s, ch)
      case Writing(rest) => Write(c, s, ch, rest)
      case Draining(why) => Drain(s, ch, why)
      case Reaping(why) => Reap(s, ch, why)
      case _ => Stop(s)
  }

  /** The helper dies on its own: a signal, a failed exec, exit(1) from fail(). */
  function NextCrash(s: State, status: Status): State
  {
    if s.h.pc.Ended? || status == Exited(0) then s
    else s.(h := s.h.(pc := Ended(status), crashed := true))
  }

  function NextState(c: Config, s: State, l: Label): State
  {
    match l
    case Backend(ch) => NextBackend(c, s, ch)
    case Helper(ch) => NextHelper(c, s, ch)
    case Crash(status) => NextCrash(s, status)
  }

  /** The state a finite sequence of steps leads to. */
  function Exec(c: Config, s: State, labels: seq<Label>): State
  {
    if labels == [] then s
    else NextState(c, Exec(c, s, labels[..|labels| - 1]), labels[|labels| - 1])
  }

  predicate Final(s: State)
  {
    s.b.phase.Returned? || s.b.phase.Raised?
  }
}
