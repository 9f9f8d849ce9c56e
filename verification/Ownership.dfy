/** What a process does to descriptors and to its child, as a trace of system calls. */
module Ownership {
  import opened Bytes

  /** Ended is the end of the child's error pipe; Waited a waitpid that returned anything but EINTR. */
  datatype Event = Opened(fd: nat) | Closed(fd: nat) | Forked | Ended | Killed | Waited

  /** Dying: a wait for it will not be long. */
  datatype Child = NoChild | Running | Dying | Collected

  /** What is held after a trace; Misuse once a call was made on something not held, or waited for a running child. */
  datatype Held = Held(open: set<nat>, child: Child) | Misuse

  function Next(h: Held, e: Event): Held
  {
    if h.Misuse? then Misuse else
    match e
    case Opened(fd) => if fd in h.open then Misuse else h.(open := h.open + {fd})
    case Closed(fd) => if fd in h.open then h.(open := h.open - {fd}) else Misuse
    case Forked => if h.child == NoChild then h.(child := Running) else Misuse
    case Ended => if h.child == Running then h.(child := Dying) else h
    case Killed => if h.child == Running || h.child == Dying then h.(child := Dying) else Misuse
    case Waited => if h.child == Dying then h.(child := Collected) else Misuse
  }

  function After(trace: seq<Event>): Held
  {
    if trace == [] then Held({}, NoChild)
    else Next(After(trace[..|trace| - 1]), trace[|trace| - 1])
  }

  lemma AfterStep(trace: seq<Event>, e: Event)
    ensures After(trace + [e]) == Next(After(trace), e)
  {
    assert (trace + [e])[..|trace|] == trace;
  }

  function Count(trace: seq<Event>, e: Event): nat
  {
    if trace == [] then 0
    else Count(trace[..|trace| - 1], e) + if trace[|trace| - 1] == e then 1 else 0
  }

  /** Without misuse, a descriptor is open exactly when it was opened once more than closed. */
  lemma {:induction false} Balance(trace: seq<Event>, fd: nat)
    requires After(trace).Held?
    ensures Count(trace, Opened(fd)) == Count(trace, Closed(fd)) + if fd in After(trace).open then 1 else 0
    ensures Count(trace, Forked) == if After(trace).child == NoChild then 0 else 1
    ensures Count(trace, Waited) == if After(trace).child == Collected then 1 else 0
  {
    if trace != [] {
      Balance(trace[..|trace| - 1], fd);
    }
  }

  /** Without misuse, nothing is killed once it has been waited for. */
  lemma {:induction false} NoKillAfterWait(trace: seq<Event>, i: nat, j: nat)
    requires After(trace).Held? && i < j < |trace| && trace[i] == Waited
    ensures trace[j] != Killed && trace[j] != Waited && After(trace).child == Collected
  {
    var front := trace[..|trace| - 1];
    if j == |trace| - 1 {
      if i < |front| - 1 {
        NoKillAfterWait(front, i, |front| - 1);
      } else {
        assert front[|front| - 1] == Waited;
      }
    } else {
      NoKillAfterWait(front, i, j);
      if front[|front| - 1] == Waited || j < |front| - 1 {
        NoKillAfterWait(front, i, |front| - 1);
      }
    }
  }

  lemma {:induction false} DyingHasCause(trace: seq<Event>)
    requires After(trace).Held? && (After(trace).child == Dying || After(trace).child == Collected)
    ensures exists i | 0 <= i < |trace| :: trace[i] == Killed || trace[i] == Ended
  {
    var front, last := trace[..|trace| - 1], trace[|trace| - 1];
    if last != Killed && last != Ended {
      DyingHasCause(front);
      var i :| 0 <= i < |front| && (front[i] == Killed || front[i] == Ended);
      assert trace[i] == front[i];
    }
  }

  /** Without misuse, a child is waited for only once it was killed or its error pipe had ended. */
  lemma {:induction false} WaitIsShort(trace: seq<Event>, j: nat)
    requires After(trace).Held? && j < |trace| && trace[j] == Waited
    ensures exists i | 0 <= i < j :: trace[i] == Killed || trace[i] == Ended
  {
    var front := trace[..|trace| - 1];
    if j == |trace| - 1 {
      DyingHasCause(front);
      var i :| 0 <= i < |front| && (front[i] == Killed || front[i] == Ended);
      assert trace[i] == front[i];
    } else {
      WaitIsShort(front, j);
      var i :| 0 <= i < j && (front[i] == Killed || front[i] == Ended);
      assert trace[i] == front[i];
    }
  }

  ghost predicate WaitsAreShort(trace: seq<Event>)
  {
    forall j | 0 <= j < |trace| && trace[j] == Waited ::
      exists i | 0 <= i < j :: trace[i] == Killed || trace[i] == Ended
  }

  lemma AllWaitsAreShort(trace: seq<Event>)
    requires After(trace).Held?
    ensures WaitsAreShort(trace)
  {
    forall j | 0 <= j < |trace| && trace[j] == Waited
      ensures exists i | 0 <= i < j :: trace[i] == Killed || trace[i] == Ended
    {
      WaitIsShort(trace, j);
    }
  }

  /** What was added to a trace ends in a wait, with a kill before it. */
  ghost predicate KilledThenWaited(was: seq<Event>, now: seq<Event>)
  {
    && was <= now && |was| < |now| && now[|now| - 1] == Waited
    && exists i | |was| <= i < |now| - 1 :: now[i] == Killed
  }
}
