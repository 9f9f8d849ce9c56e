/**
  The backend's side of the helper: chdbHelper and the calls on it.

  The kernel answers each call as it likes: a short count, EINTR, EAGAIN, failure.
  Its `patience` bounds how often it answers without moving anything, so that each
  loop here ends; that two live processes keep each other supplied is shown on the
  transition system, not here.
 */
module Helper {
  import opened Bytes
  import opened ErrorText
  import opened Ownership
  import Setup

  const ERR_MAX := 4096

  datatype ReadResult = Got(data: Bytes) | Eof | Again | Eintr | Broken

  datatype WriteResult = Put(count: nat) | Again | Eintr | Rejected(peerGone: bool)

  datatype WaitResult = Status(status: int) | Eintr | NoStatus

  class Kernel {
    var trace: seq<Event>
    var patience: nat
    var errIncoming: Bytes    // what the helper will still have written to its error pipe
    var errTaken: Bytes       // what has been read from it
    var dataIncoming: Bytes
    var dataTaken: Bytes
    var sent: map<int, Bytes> // per descriptor, what write() has accepted
    ghost var stalled: bool   // a channel would block, and the error pipe has not been emptied since
    ghost var refusal: Option<bool> // of the last write() that failed: whether its reader was gone
    ghost var fault: bool     // a cancel, a failed call, or a helper that did not exit with status 0

    predicate Sane()
      reads `trace
    {
      After(trace).Held?
    }

    function Sent(fd: int): Bytes
      reads `sent
    {
      if fd in sent then sent[fd] else []
    }

    /** Everything the helper writes to its error channel, read or not. */
    function AllErr(): Bytes
      reads `errTaken, `errIncoming
    {
      errTaken + errIncoming
    }

    lemma PairOpens(trace: seq<Event>, x: nat, y: nat)
      requires After(trace).Held? && x != y && x !in After(trace).open && y !in After(trace).open
      ensures After(trace + [Opened(x)] + [Opened(y)]) == After(trace).(open := After(trace).open + {x, y})
    {
      hide After;
      AfterStep(trace, Opened(x));
      AfterStep(trace + [Opened(x)], Opened(y));
      assert After(trace).open + {x} + {y} == After(trace).open + {x, y};
    }

    /** pipe() or socketpair(): two fresh descriptors, or nothing. */
    method OpenPair() returns (ok: bool, a: int, b: int)
      requires Sane()
      modifies this`trace, this`sent, this`fault
      ensures Sane()
      ensures if ok then fault == old(fault) else fault
      ensures !ok ==> trace == old(trace) && sent == old(sent)
      ensures ok ==> 0 <= a && 0 <= b && a != b
      ensures ok ==> a !in old(After(trace).open) && b !in old(After(trace).open)
      ensures ok ==> After(trace) == old(After(trace)).(open := old(After(trace).open) + {a, b})
      ensures ok ==> sent == old(sent)[a := []][b := []]
    {
      hide After;
      var x: nat := *;
      var y: nat := *;
      var open := After(trace).open;
      ok := x != y && x !in open && y !in open;
      a, b := x, y;
      if ok {
        PairOpens(trace, x, y);
        trace := trace + [Opened(x)] + [Opened(y)];
        sent := sent[a := []][b := []];
      } else {
        fault := true;
      }
    }

    /** close_fd: closes what is held, and says so by the -1 it leaves behind. */
    method CloseFd(fd: int) returns (gone: int)
      requires Sane() && (fd >= 0 ==> fd in After(trace).open)
      modifies this`trace
      ensures gone < 0 && (fd >= 0 ==> gone == -1) && (fd < 0 ==> gone == fd)
      ensures fd < 0 ==> trace == old(trace)
      ensures old(trace) <= trace
      ensures Sane() && After(trace) == old(After(trace)).(open := old(After(trace).open) - {fd})
    {
      gone := fd;
      if fd >= 0 {
        AfterStep(trace, Closed(fd));
        trace := trace + [Closed(fd)];
        gone := -1;
      }
    }

    method Fork() returns (ok: bool)
      requires Sane() && After(trace).child == NoChild
      modifies this`trace, this`fault
      ensures if ok then fault == old(fault) else fault
      ensures !ok ==> trace == old(trace)
      ensures ok ==> Sane() && After(trace) == old(After(trace)).(child := Running)
    {
      ok := *;
      if ok {
        AfterStep(trace, Forked);
        trace := trace + [Forked];
      } else {
        fault := true;
      }
    }

    /** access(), or the fcntl calls that set FD_CLOEXEC and O_NONBLOCK. */
    method Succeeds() returns (ok: bool)
      modifies this`fault
      ensures if ok then fault == old(fault) else fault
    {
      ok := *;
      fault := fault || !ok;
    }

    /** CHECK_FOR_INTERRUPTS: whether a cancel is pending. */
    method CheckForInterrupts() returns (cancelled: bool)
      modifies this`fault
      ensures if cancelled then fault else fault == old(fault)
    {
      cancelled := *;
      fault := fault || cancelled;
    }

    method Kill()
      requires Sane() && (After(trace).child == Running || After(trace).child == Dying)
      modifies this`trace
      ensures trace == old(trace) + [Killed]
      ensures Sane() && After(trace) == old(After(trace)).(child := Dying)
    {
      AfterStep(trace, Killed);
      trace := trace + [Killed];
    }

    method Waitpid() returns (r: WaitResult)
      requires Sane() && After(trace).child == Dying
      modifies this`trace, this`patience, this`fault
      ensures if r.Eintr? || r == Status(0) then fault == old(fault) else fault
      ensures r.Eintr? ==> trace == old(trace) && patience < old(patience)
      ensures !r.Eintr? ==> trace == old(trace) + [Waited]
      ensures !r.Eintr? ==> Sane() && After(trace) == old(After(trace)).(child := Collected)
      ensures patience <= old(patience)
      ensures r.Status? ==> 0 <= r.status
    {
      r := *;
      if r.Eintr? && 0 < patience {
        patience := patience - 1;
      } else {
        AfterStep(trace, Waited);
        trace := trace + [Waited];
        r := if r.Status? && 0 <= r.status then r else NoStatus;
        fault := fault || r != Status(0);
      }
    }

    /** read() on the nonblocking error pipe, which never fails hard. */
    method ReadErr(len: nat) returns (r: ReadResult)
      requires 0 < len && Sane()
      modifies this`patience, this`errIncoming, this`errTaken, this`trace, this`stalled
      ensures stalled == (old(stalled) && !r.Again?)
      ensures !r.Eof? ==> trace == old(trace)
      ensures r.Eof? ==> MayWait(trace)
      ensures r.Eof? ==> After(trace) == old(After(trace)).(child := After(trace).child)
      ensures After(trace).child == old(After(trace).child) || (old(After(trace).child) == Running && After(trace).child == Dying)
      ensures !r.Broken?
      ensures AllErr() == old(AllErr())
      ensures r.Got? ==> 0 < |r.data| <= len && errTaken == old(errTaken) + r.data
                         && |errIncoming| < old(|errIncoming|)
      ensures r.Eof? ==> errIncoming == []
      ensures !r.Got? ==> errIncoming == old(errIncoming) && errTaken == old(errTaken)
      ensures r.Again? || r.Eintr? ==> patience < old(patience)
      ensures patience <= old(patience)
    {
      r := *;
      if (r.Again? || r.Eintr?) && 0 < patience {
        patience := patience - 1;
        stalled := stalled && !r.Again?;
      } else if errIncoming == [] {
        AfterStep(trace, Ended);
        trace := trace + [Ended];
        r := Eof;
      } else {
        var n: nat := *;
        n := if 0 < n <= len && n <= |errIncoming| then n else 1;
        r := Got(errIncoming[..n]);
        errTaken := errTaken + errIncoming[..n];
        errIncoming := errIncoming[n..];
      }
    }

    /** read() on the nonblocking data socket. */
    method ReadData(fd: int, len: nat, ghost errEnded: bool) returns (r: ReadResult)
      requires 0 < len && (stalled ==> errEnded)
      modifies this`patience, this`dataIncoming, this`dataTaken, this`fault, this`stalled
      ensures stalled == (old(stalled) || r.Again?)
      ensures if r.Broken? then fault else fault == old(fault)
      ensures r.Got? ==> 0 < |r.data| <= len && r.data + dataIncoming == old(dataIncoming)
                         && dataTaken == old(dataTaken) + r.data
      ensures r.Eof? ==> dataIncoming == []
      ensures !r.Got? ==> dataIncoming == old(dataIncoming) && dataTaken == old(dataTaken)
      ensures r.Again? || r.Eintr? ==> patience < old(patience)
      ensures patience <= old(patience)
    {
      r := *;
      if fd < 0 {
        r, fault := Broken, true;
      } else if (r.Again? || r.Eintr?) && 0 < patience {
        patience := patience - 1;
        stalled := stalled || r.Again?;
      } else if r.Got? && dataIncoming != [] {
        var n: nat := *;
        n := if 0 < n <= len && n <= |dataIncoming| then n else 1;
        r := Got(dataIncoming[..n]);
        dataTaken := dataTaken + dataIncoming[..n];
        dataIncoming := dataIncoming[n..];
      } else if dataIncoming == [] {
        r := Eof;
      } else {
        r, fault := Broken, true;
      }
    }

    method Write(fd: int, p: Bytes, ghost errEnded: bool) returns (r: WriteResult)
      requires p != [] && (stalled ==> errEnded)
      modifies this`patience, this`sent, this`refusal, this`fault, this`stalled
      ensures stalled == (old(stalled) || r.Again?)
      ensures refusal == if r.Rejected? then Some(r.peerGone) else old(refusal)
      ensures if r.Rejected? then fault else fault == old(fault)
      ensures r.Put? ==> 0 < r.count <= |p| && Sent(fd) == old(Sent(fd)) + p[..r.count]
      ensures !r.Put? ==> sent == old(sent)
      ensures forall other | other != fd :: Sent(other) == old(Sent(other))
      ensures r.Again? || r.Eintr? ==> patience < old(patience)
      ensures patience <= old(patience)
    {
      r := *;
      if (r.Again? || r.Eintr?) && 0 < patience {
        patience := patience - 1;
        stalled := stalled || r.Again?;
      } else if r.Put? {
        r := if 0 < r.count <= |p| then r else Put(1);
        sent := sent[fd := Sent(fd) + p[..r.count]];
      } else {
        r := if r.Rejected? then r else Rejected(true);
        refusal, fault := Some(r.peerGone), true;
      }
    }
  }

  /** What a call ends in: a value, a cancel, the helper's own report, or a system error. */
  datatype Outcome<+T> = Ok(value: T) | Cancelled | Reported(detail: Option<Bytes>) | Failed

  datatype Written = All | Cut(peerGone: bool) | Interrupted

  /** The part of the error text err_buf has room for. */
  function Head(text: Bytes): (h: Bytes)
    ensures h <= text && |h| == if |text| < 4095 then |text| else 4095
  {
    text[..Min(ERR_MAX - 1, |text|)]
  }

  /** memmove within a buffer, towards its start. */
  function Moved(s: Bytes, to: nat, from: nat, count: nat): (t: Bytes)
    requires to <= from && from + count <= |s|
    ensures |t| == |s|
  {
    s[..to] + s[from..from + count] + s[to + count..]
  }

  lemma MovedAt(s: Bytes, to: nat, from: nat, count: nat, m: nat)
    requires to <= from && from + count <= |s| && m < |s|
    ensures Moved(s, to, from, count)[m] == if to <= m < to + count then s[m + (from - to)] else s[m]
  {
  }

  function One(fd: int): set<nat>
  {
    if 0 <= fd then {fd} else {}
  }

  /** There is no running child to wait long for. */
  predicate MayWait(trace: seq<Event>)
  {
    After(trace).Held? && After(trace).child != Running
  }

  /** What the fields say of the child. */
  predicate ChildIs(child: Child, pid: int, reaped: bool)
  {
    if pid <= 0 then child == NoChild
    else if reaped then child == Collected
    else child == Running || child == Dying
  }

  class ChdbHelper {
    var pid: int
    var data: int
    var err: int
    var setup: int
    var dataPeer: int
    var errPeer: int
    var setupPeer: int
    var reaped: bool
    var status: int
    var errLen: nat
    const errBuf: array<byte>
    ghost var edited: bool   // helper_error has run, so the capture is no longer raw

    /** The descriptors the fields hold. */
    ghost function Open(): set<nat>
      reads `data, `err, `setup, `dataPeer, `errPeer, `setupPeer
    {
      One(data) + One(err) + One(setup) + One(dataPeer) + One(errPeer) + One(setupPeer)
    }

    /** The fields name exactly what the process holds, each once. */
    ghost predicate Owns(k: Kernel)
      reads `data, `err, `setup, `dataPeer, `errPeer, `setupPeer, `pid, `reaped, k`trace
    {
      && One(data) !! One(err) !! One(setup) !! One(dataPeer) !! One(errPeer) !! One(setupPeer)
      && After(k.trace).Held? && After(k.trace).open == Open()
      && ChildIs(After(k.trace).child, pid, reaped)
      && (reaped ==> 0 < pid)
    }

    /** err_buf holds the head of the error text read so far. */
    ghost predicate Captured(k: Kernel)
      reads `errLen, `edited, k`errTaken, errBuf
    {
      && errBuf.Length == ERR_MAX && errLen < ERR_MAX
      && (!edited ==> errBuf[..errLen] == Head(k.errTaken))
    }

    ghost predicate Valid(k: Kernel)
      reads this, k`trace, k`errTaken, k`fault, errBuf
    {
      k.Sane() && Owns(k) && Captured(k) && (reaped && status != 0 ==> k.fault)
    }

    /** Between chdb_helper_start and a raise: the error pipe is only closed at its end. */
    ghost predicate Live(k: Kernel)
      reads this, k`trace, k`errTaken, k`errIncoming, k`stalled, k`fault, errBuf
    {
      && Valid(k) && !edited && 0 < pid
      && dataPeer < 0 && errPeer < 0 && setupPeer < 0
      && (k.stalled ==> err < 0)
      && (err < 0 ==> k.errIncoming == [] && MayWait(k.trace))
    }

    /** palloc0, with every descriptor unset and stop_helper registered. */
    constructor (k: Kernel)
      requires k.trace == [] && k.errTaken == []
      ensures Valid(k) && !edited && fresh(errBuf)
      ensures pid == -1 && !reaped
      ensures data < 0 && err < 0 && setup < 0 && dataPeer < 0 && errPeer < 0 && setupPeer < 0
    {
      pid, data, err, setup, dataPeer, errPeer, setupPeer := -1, -1, -1, -1, -1, -1, -1;
      reaped, status, errLen, edited := false, 0, 0, false;
      errBuf := new byte[ERR_MAX];
    }

    method CloseData(k: Kernel)
      requires Valid(k)
      modifies this`data, k`trace
      ensures Valid(k) && data < 0
      ensures old(data) < 0 ==> k.trace == old(k.trace)
      ensures old(k.trace) <= k.trace && After(k.trace).child == old(After(k.trace).child)
    {
      hide Captured, After;
      data := k.CloseFd(data);
    }

    method CloseErr(k: Kernel)
      requires Valid(k)
      modifies this`err, k`trace
      ensures Valid(k) && err < 0
      ensures old(err) < 0 ==> k.trace == old(k.trace)
      ensures old(k.trace) <= k.trace && After(k.trace).child == old(After(k.trace).child)
    {
      hide Captured, After;
      err := k.CloseFd(err);
    }

    method CloseSetup(k: Kernel)
      requires Valid(k)
      modifies this`setup, k`trace
      ensures Valid(k) && setup < 0
      ensures old(setup) < 0 ==> k.trace == old(k.trace)
      ensures old(k.trace) <= k.trace && After(k.trace).child == old(After(k.trace).child)
    {
      hide Captured, After;
      setup := k.CloseFd(setup);
    }

    method CloseDataPeer(k: Kernel)
      requires Valid(k)
      modifies this`dataPeer, k`trace
      ensures Valid(k) && dataPeer < 0
      ensures old(dataPeer) < 0 ==> k.trace == old(k.trace)
      ensures old(k.trace) <= k.trace && After(k.trace).child == old(After(k.trace).child)
    {
      hide Captured, After;
      dataPeer := k.CloseFd(dataPeer);
    }

    method CloseErrPeer(k: Kernel)
      requires Valid(k)
      modifies this`errPeer, k`trace
      ensures Valid(k) && errPeer < 0
      ensures old(errPeer) < 0 ==> k.trace == old(k.trace)
      ensures old(k.trace) <= k.trace && After(k.trace).child == old(After(k.trace).child)
    {
      hide Captured, After;
      errPeer := k.CloseFd(errPeer);
    }

    method CloseSetupPeer(k: Kernel)
      requires Valid(k)
      modifies this`setupPeer, k`trace
      ensures Valid(k) && setupPeer < 0
      ensures old(setupPeer) < 0 ==> k.trace == old(k.trace)
      ensures old(k.trace) <= k.trace && After(k.trace).child == old(After(k.trace).child)
    {
      hide Captured, After;
      setupPeer := k.CloseFd(setupPeer);
    }

    /** The helper's ends, which the backend holds only until the fork. */
    method ClosePeers(k: Kernel)
      requires Valid(k)
      modifies this`dataPeer, this`errPeer, this`setupPeer, k`trace
      ensures Valid(k) && dataPeer < 0 && errPeer < 0 && setupPeer < 0
      ensures old(dataPeer) < 0 && old(errPeer) < 0 && old(setupPeer) < 0 ==> k.trace == old(k.trace)
      ensures old(k.trace) <= k.trace && After(k.trace).child == old(After(k.trace).child)
    {
      hide Owns, Captured, After;
      CloseDataPeer(k);
      CloseErrPeer(k);
      CloseSetupPeer(k);
    }

    /** stop_helper: on any path it leaves nothing open and no child behind. */
    method Stop(k: Kernel)
      requires Valid(k)
      modifies this, k`trace, k`patience, k`fault
      ensures Valid(k) && Open() == {}
      ensures After(k.trace) == Held({}, if pid <= 0 then NoChild else Collected)
      ensures 0 < pid && !old(reaped) ==> KilledThenWaited(old(k.trace), k.trace)
      ensures pid == old(pid) && (old(reaped) ==> status == old(status))
      ensures old(Open()) == {} && (pid <= 0 || old(reaped)) ==> k.trace == old(k.trace)
      ensures if pid <= 0 || old(reaped) then k.fault == old(k.fault) else old(k.fault) ==> k.fault
    {
      hide Captured, After;
      CloseAll(k);
      if 0 < pid && !reaped {
        k.Kill();
        ghost var killed := |k.trace| - 1;
        var _ := Reap(k);
        assert k.trace[killed] == Killed;
      }
    }

    method CloseAll(k: Kernel)
      requires Valid(k)
      modifies this`data, this`err, this`setup, this`dataPeer, this`errPeer, this`setupPeer, k`trace
      ensures Valid(k) && Open() == {}
      ensures old(Open()) == {} ==> k.trace == old(k.trace)
      ensures old(k.trace) <= k.trace && After(k.trace).child == old(After(k.trace).child)
    {
      hide Owns, Captured, After;
      CloseData(k);
      CloseErr(k);
      CloseSetup(k);
      ClosePeers(k);
    }

    method Reap(k: Kernel) returns (s: int)
      requires Valid(k) && 0 < pid && MayWait(k.trace)
      modifies this`reaped, this`status, k`trace, k`patience, k`fault
      ensures Valid(k) && reaped && s == status && MayWait(k.trace)
      ensures if s == 0 then k.fault == old(k.fault) else k.fault
      ensures if old(reaped) then k.trace == old(k.trace) && s == old(status) else k.trace == old(k.trace) + [Waited]
    {
      if reaped {
        return status;
      }
      while true
        invariant Valid(k) && !reaped && k.fault == old(k.fault) && k.trace == old(k.trace)
        decreases k.patience
      {
        var r := k.Waitpid();
        if !r.Eintr? {
          status := if r.Status? then r.status else -1;
          break;
        }
      }
      reaped := true;
      return status;
    }

    /** One read of the error pipe, which at its end tells that the child is on its way out. */
    method ReadErr(k: Kernel, len: nat) returns (r: ReadResult)
      requires Valid(k) && 0 < len
      modifies k`patience, k`errIncoming, k`errTaken, k`stalled, k`trace
      ensures Owns(k) && k.Sane() && !r.Broken? && k.AllErr() == old(k.AllErr())
      ensures r.Got? ==> 0 < |r.data| <= len && k.errTaken == old(k.errTaken) + r.data
                         && |k.errIncoming| < old(|k.errIncoming|)
      ensures k.stalled == (old(k.stalled) && !r.Again?)
      ensures r.Eof? ==> k.errIncoming == [] && MayWait(k.trace)
      ensures !r.Got? ==> k.errIncoming == old(k.errIncoming) && k.errTaken == old(k.errTaken)
      ensures r.Again? || r.Eintr? ==> k.patience < old(k.patience)
      ensures k.patience <= old(k.patience)
    {
      hide After;
      r := k.ReadErr(len);
    }

    /** drain_err: takes what there is, keeping the head and discarding the rest. */
    method DrainErr(k: Kernel)
      requires Valid(k) && !edited
      modifies this`err, this`errLen, errBuf, k`trace, k`patience, k`errIncoming, k`errTaken, k`stalled
      ensures Valid(k)
      ensures 0 <= err ==> !k.stalled
      ensures k.stalled ==> old(k.stalled)
      ensures k.AllErr() == old(k.AllErr())
      ensures err < 0 <= old(err) ==> k.errIncoming == []
      ensures 0 <= err ==> k.patience < old(k.patience)
      ensures k.patience <= old(k.patience)
      ensures err < 0 <= old(err) ==> MayWait(k.trace)
      ensures old(err) < 0 ==> k.trace == old(k.trace)
      ensures old(err) < 0 ==> err == old(err) && k.errTaken == old(k.errTaken) && k.errIncoming == old(k.errIncoming)
    {
      hide Owns, After;
      while 0 <= err
        invariant Valid(k)
        invariant k.stalled ==> old(k.stalled)
        invariant k.AllErr() == old(k.AllErr())
        invariant err < 0 <= old(err) ==> k.errIncoming == [] && MayWait(k.trace)
        invariant old(err) < 0 ==> k.trace == old(k.trace)
        invariant k.patience <= old(k.patience)
        invariant old(err) < 0 ==> err == old(err) && k.errTaken == old(k.errTaken) && k.errIncoming == old(k.errIncoming)
        decreases 0 <= err, |k.errIncoming|, k.patience
      {
        var room := ERR_MAX - 1 - errLen;
        var r := ReadErr(k, if room != 0 then room else ERR_MAX);
        match r {
          case Got(bytes) => if room != 0 { Keep(bytes); }
          case Eof => CloseErr(k);
          case Again => return;
          case Eintr =>
          case Broken => assert false;
        }
      }
    }

    /** The bytes read() puts after those already kept. */
    method Keep(bytes: Bytes)
      requires errBuf.Length == ERR_MAX && errLen + |bytes| < ERR_MAX
      modifies this`errLen, errBuf
      ensures errLen == old(errLen) + |bytes| && errBuf[..errLen] == old(errBuf[..errLen]) + bytes
    {
      forall i | 0 <= i < |bytes| {
        errBuf[errLen + i] := bytes[i];
      }
      errLen := errLen + |bytes|;
    }

    /** drain_and_reap: None when a cancel cut it short, else the wait status. */
    method DrainAndReap(k: Kernel) returns (s: Option<int>)
      requires Valid(k) && !edited && 0 < pid && (err < 0 ==> MayWait(k.trace))
      modifies this`err, this`errLen, this`reaped, this`status, errBuf
      modifies k`trace, k`patience, k`fault, k`errIncoming, k`errTaken, k`stalled
      ensures Valid(k)
      ensures k.AllErr() == old(k.AllErr())
      ensures s.Some? ==> err < 0 && reaped && s.value == status && MayWait(k.trace)
      ensures if s == Some(0) then k.fault == old(k.fault) else k.fault
      ensures s.Some? && 0 <= old(err) ==> k.errIncoming == []
      ensures s.Some? && old(err) < 0 ==> k.errTaken == old(k.errTaken) && k.errIncoming == old(k.errIncoming)
    {
      while 0 <= err
        invariant Valid(k) && (err < 0 ==> MayWait(k.trace))
        invariant k.AllErr() == old(k.AllErr())
        invariant err < 0 <= old(err) ==> k.errIncoming == []
        invariant old(err) < 0 ==> err == old(err) && k.errTaken == old(k.errTaken) && k.errIncoming == old(k.errIncoming)
        invariant k.fault == old(k.fault)
        decreases 0 <= err, k.patience
      {
        var cancelled := k.CheckForInterrupts();
        if cancelled {
          return None;
        }
        DrainErr(k);
      }
      var value := Reap(k);
      return Some(value);
    }

    method Memmove(to: nat, from: nat, count: nat)
      requires to <= from && from + count <= errBuf.Length
      modifies errBuf
      ensures errBuf[..] == Moved(old(errBuf[..]), to, from, count)
    {
      forall m | to <= m < to + count {
        errBuf[m] := errBuf[m + (from - to)];
      }
      ghost var was := old(errBuf[..]);
      forall m | 0 <= m < errBuf.Length ensures errBuf[m] == Moved(was, to, from, count)[m] {
        MovedAt(was, to, from, count, m);
      }
    }

    /** memmove(text + i, text + j + 1, strlen(text + j + 1) + 1), and the new strlen. */
    method CloseGap(text: Bytes, i: nat, j: nat)
      requires text < errBuf[..] && errBuf[|text|] == NUL && NUL !in text && i <= j < |text|
      modifies this`errLen, errBuf
      ensures NUL in errBuf[..] && CString(errBuf[..]) == text[..i] + text[j + 1..]
      ensures errLen < errBuf.Length
    {
      ghost var was := errBuf[..];
      Memmove(i, j + 1, |text| - j);
      CStringMoved(was, text, i, j, errBuf[..]);
      errLen := i + (|text| - j - 1);
    }

    /** One deletion of helper_error, on the NUL-terminated text. */
    method DeleteSpan(start: Bytes, stop: byte)
      requires start != [] && NUL in errBuf[..] && errLen < errBuf.Length
      modifies this`errLen, errBuf
      ensures NUL in errBuf[..] && errLen < errBuf.Length
      ensures CString(errBuf[..]) == WithoutSpan(CString(old(errBuf[..])), start, stop)
    {
      hide Find, CString, Span;
      var text := CString(errBuf[..]);
      match Span(text, start, stop) {
        case None =>
        case Some((i, j)) => CloseGap(text, i, j);
      }
    }

    /** helper_error: edits err_buf in place and returns the text, or None. */
    method HelperError() returns (text: Option<Bytes>)
      requires errBuf.Length == ERR_MAX && errLen < ERR_MAX
      modifies this`errLen, this`edited, errBuf
      ensures text == Cleaned(old(errBuf[..errLen]))
      ensures edited && errLen < ERR_MAX
    {
      ghost var raw := errBuf[..errLen];
      while 0 < errLen && (errBuf[errLen - 1] == NEWLINE || errBuf[errLen - 1] == RETURN)
        invariant errLen < ERR_MAX && errBuf[..] == old(errBuf[..])
        invariant Stripped(errBuf[..errLen]) == Stripped(raw)
      {
        assert errBuf[..errLen][..errLen - 1] == errBuf[..errLen - 1];
        errLen := errLen - 1;
      }
      ghost var stripped := errBuf[..errLen];
      edited := true;
      errLen := ClipLen(errBuf[..errLen]);
      assert errBuf[..errLen] == stripped[..errLen];
      errBuf[errLen] := NUL;
      CStringTerminated(errBuf[..], stripped[..errLen]);
      if errLen == 0 {
        return None;
      }
      assert errBuf[0] == stripped[0] != NUL;
      DeleteSpan(REQUEST_ID, NEWLINE);
      DeleteSpan(VERSION, CLOSE);
      return Some(CString(errBuf[..]));
    }

    /** report_helper: waits for the helper's last words, then raises with them. */
    method Report(k: Kernel) returns (detail: Option<Option<Bytes>>)
      requires Live(k)
      modifies this`err, this`errLen, this`reaped, this`status, this`edited, errBuf
      modifies k`trace, k`patience, k`fault, k`errIncoming, k`errTaken, k`stalled
      ensures old(k.fault) ==> k.fault
      ensures Valid(k)
      ensures detail.Some? ==> detail.value == Cleaned(Head(old(k.AllErr())))
    {
      var s := DrainAndReap(k);
      if s.None? {
        return None;
      }
      assert k.errTaken == old(k.AllErr());
      var text := HelperError();
      return Some(text);
    }

    /** write_all: drains the helper's error text whenever the channel would block. */
    method WriteAll(k: Kernel, fd: int, p: Bytes) returns (r: Written, n: nat)
      requires Live(k)
      modifies this`err, this`errLen, errBuf
      modifies k`trace, k`patience, k`fault, k`errIncoming, k`errTaken, k`stalled, k`sent, k`refusal
      ensures Live(k)
      ensures k.AllErr() == old(k.AllErr())
      ensures k.refusal == if r.Cut? then Some(r.peerGone) else old(k.refusal)
      ensures if r.All? then k.fault == old(k.fault) else k.fault
      ensures n <= |p| && (r.All? ==> n == |p|) && k.Sent(fd) == old(k.Sent(fd)) + p[..n]
      ensures fd != data ==> k.Sent(data) == old(k.Sent(data))
    {
      hide Owns, Captured, Open, After, Cleaned, Head, Kernel.Sent, Kernel.AllErr;
      n := 0;
      while n < |p|
        invariant n <= |p| && Live(k)
        invariant k.AllErr() == old(k.AllErr())
        invariant k.Sent(fd) == old(k.Sent(fd)) + p[..n] && k.fault == old(k.fault) && k.refusal == old(k.refusal)
        invariant fd != data ==> k.Sent(data) == old(k.Sent(data))
        decreases |p| - n, k.patience
      {
        var cancelled := k.CheckForInterrupts();
        if cancelled {
          return Interrupted, n;
        }
        var put := k.Write(fd, p[n..], err < 0);
        match put {
          case Put(count) =>
            assert p[..n] + p[n..][..count] == p[..n + count];
            n := n + count;
          case Again => DrainErr(k);
          case Eintr =>
          case Rejected(peerGone) => return Cut(peerGone), n;
        }
      }
      return All, n;
    }

    /** write_setup. */
    method WriteSetup(k: Kernel, payload: Bytes) returns (r: Outcome<()>)
      requires Live(k)
      modifies this`err, this`errLen, this`reaped, this`status, this`edited, this`setup, errBuf
      modifies k`trace, k`patience, k`fault, k`errIncoming, k`errTaken, k`stalled, k`sent, k`refusal
      ensures if r.Ok? then k.fault == old(k.fault) else k.fault
      ensures Valid(k)
      ensures r.Ok? ==> Live(k) && setup < 0 && k.Sent(old(setup)) == old(k.Sent(setup)) + payload
      ensures r.Ok? ==> k.AllErr() == old(k.AllErr())
      ensures r.Reported? ==> r.detail == Cleaned(Head(old(k.AllErr())))
      ensures r.Reported? ==> k.refusal == Some(true)
      ensures r.Failed? ==> k.refusal == Some(false) && Live(k) && reaped == old(reaped)
      ensures old(k.refusal).None? && k.refusal == Some(true) ==> r.Reported? || r.Cancelled?
      ensures old(k.refusal).None? && k.refusal == Some(false) ==> r.Failed?
      ensures data != old(setup) ==> k.Sent(data) == old(k.Sent(data))
    {
      hide Owns, Captured, Open, After, Cleaned, Head;
      var written, n := WriteAll(k, setup, payload);
      match written {
        case Interrupted => return Cancelled;
        case Cut(peerGone) =>
          if !peerGone {
            return Failed;
          }
          var detail := Report(k);
          return if detail.None? then Cancelled else Reported(detail.value);
        case All =>
          assert payload[..n] == payload;
          CloseSetup(k);
          return Ok(());
      }
    }

    /** chdb_helper_write. */
    method Write(k: Kernel, p: Bytes) returns (r: Outcome<()>)
      requires Live(k)
      modifies this`err, this`errLen, this`reaped, this`status, this`edited, errBuf
      modifies k`trace, k`patience, k`fault, k`errIncoming, k`errTaken, k`stalled, k`sent, k`refusal
      ensures if r.Ok? then k.fault == old(k.fault) else k.fault
      ensures Valid(k)
      ensures r.Ok? ==> Live(k) && k.Sent(data) == old(k.Sent(data)) + p
      ensures r.Ok? ==> k.AllErr() == old(k.AllErr())
      ensures r.Reported? ==> r.detail == Cleaned(Head(old(k.AllErr())))
    {
      hide Owns, Captured, Open, After, Cleaned, Head;
      var written, n := WriteAll(k, data, p);
      match written {
        case Interrupted => return Cancelled;
        case Cut(_) =>
          var detail := Report(k);
          return if detail.None? then Cancelled else Reported(detail.value);
        case All =>
          assert p[..n] == p;
          return Ok(());
      }
    }

    /** chdb_helper_finish. */
    method Finish(k: Kernel) returns (r: Outcome<()>)
      requires Live(k)
      modifies this`err, this`errLen, this`reaped, this`status, this`edited, this`data, errBuf
      modifies k`trace, k`patience, k`fault, k`errIncoming, k`errTaken, k`stalled
      ensures if r.Ok? then k.fault == old(k.fault) else k.fault
      ensures Valid(k)
      ensures r.Ok? ==> Live(k) && data < 0 && err < 0 && reaped && status == 0
      ensures r.Ok? ==> k.AllErr() == old(k.AllErr())
      ensures r.Reported? ==> r.detail == Cleaned(Head(old(k.AllErr())))
    {
      hide Owns, Captured, Open, After, Cleaned, Head;
      CloseData(k);
      var s := DrainAndReap(k);
      if s.None? {
        return Cancelled;
      }
      if s.value == 0 {
        return Ok(());
      }
      var detail := Report(k);
      return if detail.None? then Cancelled else Reported(detail.value);
    }

    /**
      chdb_helper_recv: bytes the helper sent, or none once the stream has ended and
      the helper has exited with status 0.
     */
    method Recv(k: Kernel, len: nat) returns (r: Outcome<Bytes>)
      requires Live(k) && 0 < len
      modifies this`err, this`errLen, this`reaped, this`status, this`edited, this`data, errBuf
      modifies k`trace, k`patience, k`fault, k`errIncoming, k`errTaken, k`stalled, k`dataIncoming, k`dataTaken
      ensures if r.Ok? then k.fault == old(k.fault) else k.fault
      ensures Valid(k)
      ensures r.Ok? ==> Live(k) && |r.value| <= len
      ensures r.Ok? ==> k.dataTaken == old(k.dataTaken) + r.value && r.value + k.dataIncoming == old(k.dataIncoming)
      ensures r.Ok? && r.value == [] ==> k.dataIncoming == [] && reaped && status == 0 && data < 0 && err < 0
      ensures r.Ok? && r.value != [] ==> data == old(data)
      ensures r.Ok? ==> k.AllErr() == old(k.AllErr())
      ensures r.Reported? ==> r.detail == Cleaned(Head(old(k.AllErr())))
    {
      hide Owns, Captured, Open, After, Cleaned, Head;
      while true
        invariant Live(k) && data == old(data)
        invariant k.dataTaken == old(k.dataTaken) && k.dataIncoming == old(k.dataIncoming)
        invariant k.fault == old(k.fault)
        invariant k.AllErr() == old(k.AllErr())
        decreases k.patience
      {
        var cancelled := k.CheckForInterrupts();
        if cancelled {
          return Cancelled;
        }
        var got := k.ReadData(data, len, err < 0);
        match got {
          case Got(bytes) => return Ok(bytes);
          case Eof =>
            var end := Finish(k);
            return match end case Ok(_) => Ok([]) case Cancelled => Cancelled
                             case Reported(text) => Reported(text) case Failed => Failed;
          case Again => DrainErr(k);
          case Eintr =>
          case Broken => break;
        }
      }
      var detail := Report(k);
      return if detail.None? then Cancelled else Reported(detail.value);
    }

    /** open_channel: both ends land in the fields before anything can raise. */
    method OpenData(k: Kernel) returns (ok: bool)
      requires Valid(k) && data < 0 && dataPeer < 0
      modifies this`data, this`dataPeer, k`trace, k`sent, k`fault
      ensures if ok then k.fault == old(k.fault) else k.fault
      ensures Valid(k) && (ok ==> 0 <= data && k.Sent(data) == [])
    {
      hide Captured, After;
      var a, b;
      ok, a, b := k.OpenPair();
      if ok {
        data, dataPeer := a, b;
      }
    }

    method OpenErr(k: Kernel) returns (ok: bool)
      requires Valid(k) && err < 0 && errPeer < 0
      modifies this`err, this`errPeer, k`trace, k`sent, k`fault
      ensures if ok then k.fault == old(k.fault) else k.fault
      ensures Valid(k) && (ok ==> 0 <= err)
      ensures 0 <= data ==> k.Sent(data) == old(k.Sent(data))
    {
      hide Captured, After;
      var a, b;
      ok, a, b := k.OpenPair();
      if ok {
        err, errPeer := a, b;
      }
    }

    method OpenSetup(k: Kernel) returns (ok: bool)
      requires Valid(k) && setup < 0 && setupPeer < 0
      modifies this`setup, this`setupPeer, k`trace, k`sent, k`fault
      ensures if ok then k.fault == old(k.fault) else k.fault
      ensures Valid(k) && (ok ==> 0 <= setup && k.Sent(setup) == [])
      ensures 0 <= data ==> k.Sent(data) == old(k.Sent(data))
    {
      hide Captured, After;
      var a, b;
      ok, a, b := k.OpenPair();
      if ok {
        setupPeer, setup := a, b;
      }
    }

    method OpenChannels(k: Kernel) returns (ok: bool)
      requires Valid(k)
      requires data < 0 && err < 0 && setup < 0 && dataPeer < 0 && errPeer < 0 && setupPeer < 0
      modifies this`data, this`dataPeer, this`err, this`errPeer, this`setup, this`setupPeer, k`trace, k`sent, k`fault
      ensures if ok then k.fault == old(k.fault) else k.fault
      ensures Valid(k)
      ensures ok ==> 0 <= data && 0 <= err && 0 <= setup && data != setup
      ensures ok ==> k.Sent(data) == k.Sent(setup) == []
    {
      hide Captured, After;
      ok := OpenData(k);
      if ok {
        ok := OpenErr(k);
      }
      if ok {
        ok := OpenSetup(k);
      }
    }

    /** fork; the child goes on to exec_helper, the backend lets go of the helper's ends. */
    method Launch(k: Kernel) returns (ok: bool)
      requires Valid(k) && pid == -1 && !reaped
      modifies this`pid, this`dataPeer, this`errPeer, this`setupPeer, k`trace, k`fault
      ensures if ok then k.fault == old(k.fault) else k.fault
      ensures Valid(k) && (ok ==> pid == 1 && dataPeer < 0 && errPeer < 0 && setupPeer < 0)
    {
      hide Captured, After;
      ok := k.Fork();
      if ok {
        pid := 1;
        ClosePeers(k);
      }
    }

    /** The channels with their flags, and the child. */
    method Fork(k: Kernel) returns (ok: bool)
      requires Valid(k) && pid == -1 && !reaped && !edited && !k.stalled
      requires data < 0 && err < 0 && setup < 0 && dataPeer < 0 && errPeer < 0 && setupPeer < 0
      modifies this`data, this`dataPeer, this`err, this`errPeer, this`setup, this`setupPeer, this`pid
      modifies k`trace, k`sent, k`fault
      ensures if ok then k.fault == old(k.fault) else k.fault
      ensures Valid(k)
      ensures ok ==> Live(k) && 0 <= data && 0 <= setup && data != setup && k.Sent(data) == k.Sent(setup) == []
    {
      hide Owns, Captured, Open, After;
      ok := OpenChannels(k);
      if ok {
        ok := k.Succeeds();
      }
      if ok {
        ok := Launch(k);
      }
    }

    /**
      chdb_helper_start, from access() to the last byte of the setup payload.
      Wherever it raises, stop_helper can still clean up.
     */
    method Start(k: Kernel, order: Setup.Order, command: Setup.Command) returns (r: Outcome<()>, ghost fd: int)
      requires Valid(k) && pid == -1 && !edited && !k.stalled
      requires data < 0 && err < 0 && setup < 0 && dataPeer < 0 && errPeer < 0 && setupPeer < 0
      modifies this, errBuf, k
      ensures Valid(k)
      ensures r.Ok? ==> Live(k) && 0 <= data && setup < 0 && k.Sent(data) == []
      ensures r.Ok? ==> fd != data && k.Sent(fd) == Setup.Build(order, command)
      ensures if Setup.SETUP_MAX < |Setup.Build(order, command)|
              then r == Failed && k.trace == old(k.trace)
              else if r.Ok? then k.fault == old(k.fault) else k.fault
    {
      assert !reaped;
      hide Owns, Captured, Open, After, Cleaned, Head, Setup.Build;
      r, fd := Failed, -1;
      var ok := k.Succeeds();
      if !ok { return; }
      var payload := Setup.BuildSetup(order, command);
      if payload.None? { return; }
      ok := Fork(k);
      if !ok { return; }
      fd := setup;
      r := WriteSetup(k, payload.value);
    }

    /** A COPY TO's calls on the helper: one write per block, then finish. */
    method SendAll(k: Kernel, blocks: seq<Bytes>) returns (r: Outcome<()>)
      requires Live(k) && k.Sent(data) == []
      modifies this`data, this`err, this`errLen, this`reaped, this`status, this`edited, errBuf
      modifies k`trace, k`patience, k`fault, k`errIncoming, k`errTaken, k`stalled, k`sent, k`refusal
      ensures if r.Ok? then k.fault == old(k.fault) else k.fault
      ensures Valid(k)
      ensures r.Ok? ==> k.Sent(old(data)) == Flatten(blocks) && status == 0 && reaped
    {
      hide Owns, Captured, Open, After, Cleaned, Head;
      r := Ok(());
      for i := 0 to |blocks|
        invariant Live(k) && data == old(data) && k.fault == old(k.fault)
        invariant k.Sent(data) == Flatten(blocks[..i])
      {
        r := Write(k, blocks[i]);
        if !r.Ok? {
          return;
        }
        assert blocks[..i + 1] == blocks[..i] + [blocks[i]];
        FlattenAppend(blocks[..i], [blocks[i]]);
        FlattenOne(blocks[i]);
      }
      assert blocks[..|blocks|] == blocks;
      r := Finish(k);
    }

    /** A COPY FROM's calls on the helper: reads until one returns nothing. */
    method ReceiveAll(k: Kernel, len: nat) returns (r: Outcome<Bytes>)
      requires Live(k) && 0 < len
      modifies this`err, this`errLen, this`reaped, this`status, this`edited, this`data, errBuf
      modifies k`trace, k`patience, k`fault, k`errIncoming, k`errTaken, k`stalled, k`dataIncoming, k`dataTaken
      ensures if r.Ok? then k.fault == old(k.fault) else k.fault
      ensures Valid(k)
      ensures r.Ok? ==> r.value == old(k.dataIncoming) && k.dataIncoming == [] && status == 0 && reaped
    {
      hide Owns, Captured, Open, After, Cleaned, Head;
      var got: Bytes := [];
      while true
        invariant Live(k)
        invariant k.fault == old(k.fault)
        invariant got + k.dataIncoming == old(k.dataIncoming)
        decreases |k.dataIncoming|
      {
        r := Recv(k, len);
        if !r.Ok? {
          return;
        }
        if r.value == [] {
          return Ok(got);
        }
        got := got + r.value;
      }
    }
  }

  /** What a raise quotes of the helper's output is valid UTF-8 if the output is. */
  lemma ReportedTextIsValid(output: Bytes)
    requires ValidUtf8(output)
    ensures Cleaned(Head(output)).Some? ==> ValidUtf8(Cleaned(Head(output)).value)
  {
    CleanedIsValid(Head(output), output);
  }

  /**
    A whole COPY TO with the callback that the memory context runs at its end.
    However it ends, every descriptor it opened is closed and the child, if there
    was one, has been waited for.
   */
  method CopyTo(k: Kernel, order: Setup.Order, command: Setup.Command, blocks: seq<Bytes>)
    returns (h: ChdbHelper, r: Outcome<()>, ghost fd: int)
    requires k.trace == [] && k.errTaken == [] && !k.fault && !k.stalled
    modifies k
    ensures After(k.trace) == Held({}, if h.pid <= 0 then NoChild else Collected) && WaitsAreShort(k.trace)
    ensures r.Ok? ==> k.Sent(fd) == Flatten(blocks) && 0 < h.pid
    ensures r.Ok? <==> |Setup.Build(order, command)| <= Setup.SETUP_MAX && !k.fault
  {
    hide ChdbHelper.Owns, ChdbHelper.Captured, Cleaned, Head, After, Setup.Build, WaitsAreShort;
    h := new ChdbHelper(k);
    ghost var setup;
    r, setup := h.Start(k, order, command);
    fd := h.data;
    if r.Ok? {
      r := h.SendAll(k, blocks);
    }
    h.Stop(k);
    AllWaitsAreShort(k.trace);
  }

  /** A whole COPY FROM, likewise. */
  method CopyFrom(k: Kernel, order: Setup.Order, command: Setup.Command, len: nat)
    returns (h: ChdbHelper, r: Outcome<Bytes>, ghost stream: Bytes)
    requires k.trace == [] && k.errTaken == [] && !k.fault && !k.stalled && 0 < len
    modifies k
    ensures After(k.trace) == Held({}, if h.pid <= 0 then NoChild else Collected) && WaitsAreShort(k.trace)
    ensures r.Ok? <==> |Setup.Build(order, command)| <= Setup.SETUP_MAX && !k.fault
    ensures r.Ok? ==> r.value == stream && k.dataIncoming == [] && h.status == 0 && 0 < h.pid
  {
    hide ChdbHelper.Owns, ChdbHelper.Captured, Cleaned, Head, After, Setup.Build, WaitsAreShort;
    h := new ChdbHelper(k);
    var started, _ := h.Start(k, order, command);
    stream := k.dataIncoming;
    match started {
      case Ok(_) => r := h.ReceiveAll(k, len);
      case Cancelled => r := Cancelled;
      case Reported(text) => r := Reported(text);
      case Failed => r := Failed;
    }
    h.Stop(k);
    AllWaitsAreShort(k.trace);
  }
}
