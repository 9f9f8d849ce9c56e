/**
  Between fork and exec: the helper's descriptors are put in place in a table where
  they may have any numbers, the standard ones included.
 */
module Descriptors {
  const SETUP_FD: int := 3

  /** An open descriptor: the open file it refers to, and FD_CLOEXEC. */
  datatype Entry = Entry(file: nat, cloexec: bool)

  type Table = fds: map<int, Entry> | forall fd | fd in fds :: fd >= 0

  /** `fd` refers to `file`; -1 stands for a descriptor that could not be had. */
  predicate Refers(fds: Table, fd: int, file: nat)
  {
    fd == -1 || (fd in fds && fds[fd].file == file)
  }

  /** The files that would outlive an exec are all among `files`. */
  ghost predicate Inherits(fds: Table, files: set<nat>)
  {
    forall fd | fd in fds && !fds[fd].cloexec :: fds[fd].file in files
  }

  ghost function Inherited(fds: Table): (files: set<nat>)
    ensures Inherits(fds, files)
    ensures forall f :: f in files <==> exists fd :: fd in fds && !fds[fd].cloexec && fds[fd].file == f
  {
    set fd | fd in fds && !fds[fd].cloexec :: fds[fd].file
  }

  function ExecTable(fds: Table): (r: Table)
  {
    map fd | fd in fds && !fds[fd].cloexec :: fds[fd]
  }

  /** The open files meant for the helper. */
  datatype Files = Files(devNull: nat, data: nat, err: nat, setup: nat)

  datatype Exec = Exited(code: int) | Running

  /** Not among the numbers about to be taken. */
  predicate Clear(fd: int)
  {
    fd == -1 || fd > SETUP_FD
  }

  predicate Distinct(a: int, b: int)
  {
    a == b ==> a == -1
  }

  /** The query's channel where the helper looks for it, and nothing of the backend's in the other's place. */
  predicate InPlace(fds: Table, insert: bool, files: Files)
  {
    && {0, 1, 2, SETUP_FD} <= fds.Keys
    && fds[0].file == (if insert then files.data else files.devNull)
    && fds[1].file == (if insert then files.devNull else files.data)
    && fds[2].file == files.err
    && fds[SETUP_FD].file == files.setup
  }

  lemma InheritsMore(fds: Table, some: set<nat>, more: set<nat>)
    requires Inherits(fds, some) && some <= more
    ensures Inherits(fds, more)
  {
  }

  /** A process's descriptor table, and whether a call on it failed for want of a resource. */
  class Process {
    var fds: Table
    ghost var failed: bool
    ghost var refused: bool  // by execv

    constructor (fds: Table)
      ensures this.fds == fds && !failed && !refused
    {
      this.fds, failed, refused := fds, false, false;
    }

    /** execv: only what is not marked FD_CLOEXEC stays open, unless it fails and nothing happens. */
    method Exec() returns (running: bool)
      modifies this`fds, this`refused
      ensures running ==> refused == old(refused) && fds == ExecTable(old(fds))
      ensures !running ==> refused && fds == old(fds)
    {
      var fails: bool := *;
      if fails {
        refused := true;
        return false;
      }
      fds := ExecTable(fds);
      running := true;
    }

    /** Some number of `least` or above that is not open; POSIX takes the lowest. */
    method Unused(least: nat) returns (fd: int)
      ensures fd >= least && fd !in fds
    {
      fd := least;
      var seen: set<int> := {};
      while fd in fds
        invariant fd >= least && seen <= fds.Keys && forall x | x in seen :: x < fd
        decreases |fds.Keys - seen|
      {
        assert fd in fds.Keys - seen;
        ghost var rest := fds.Keys - seen;
        seen := seen + {fd};
        assert fds.Keys - seen == rest - {fd};
        fd := fd + 1;
      }
    }

    method Open(file: nat) returns (fd: int)
      modifies this`fds, this`failed
      ensures fd == -1 ==> failed && fds == old(fds)
      ensures fd != -1 ==> fd >= 0 && fd !in old(fds) && fds == old(fds)[fd := Entry(file, false)] && failed == old(failed)
      ensures Refers(fds, fd, file)
      ensures forall other, f | Refers(old(fds), other, f) :: Refers(fds, other, f) && Distinct(fd, other)
      ensures forall files | Inherits(old(fds), files) && file in files :: Inherits(fds, files)
    {
      var fails: bool := *;
      if fails {
        failed := true;
        return -1;
      }
      fd := Unused(0);
      fds := fds[fd := Entry(file, false)];
    }

    /** fcntl(F_DUPFD): the copy is without FD_CLOEXEC. */
    method DupFd(fd: int, least: nat) returns (copy: int)
      modifies this`fds, this`failed
      ensures copy == -1 ==> fds == old(fds) && (fd !in old(fds) || failed)
      ensures copy != -1 ==>
                && copy >= least && copy !in old(fds) && fd in old(fds) && failed == old(failed)
                && fds == old(fds)[copy := Entry(old(fds)[fd].file, false)]
      ensures old(failed) ==> failed
    {
      if fd !in fds {
        return -1;
      }
      var fails: bool := *;
      if fails {
        failed := true;
        return -1;
      }
      copy := Unused(least);
      fds := fds[copy := Entry(fds[fd].file, false)];
    }

    method Close(fd: int)
      modifies this`fds
      ensures fds == old(fds) - {fd}
    {
      fds := fds - {fd};
    }

    /** dup2: whatever `target` was is closed, and the copy is without FD_CLOEXEC. */
    method Dup2(fd: int, target: nat) returns (r: int)
      modifies this`fds, this`failed
      ensures r == -1 || r == target
      ensures r == -1 ==> fds == old(fds) && (fd !in old(fds) || failed)
      ensures old(failed) ==> failed
      ensures r == target ==>
                && fd in old(fds) && failed == old(failed)
                && fds == if fd == target then old(fds) else old(fds)[target := Entry(old(fds)[fd].file, false)]
    {
      if fd !in fds {
        return -1;
      }
      var fails: bool := *;
      if fails {
        failed := true;
        return -1;
      }
      if fd != target {
        fds := fds[target := Entry(fds[fd].file, false)];
      }
      r := target;
    }

    /** fcntl(F_SETFD, 0). */
    method KeepOverExec(fd: int) returns (r: int)
      modifies this`fds
      ensures r == -1 ==> fd !in old(fds) && fds == old(fds)
      ensures r != -1 ==> r == 0 && fd in old(fds) && fds == old(fds)[fd := Entry(old(fds)[fd].file, false)]
    {
      if fd !in fds {
        return -1;
      }
      fds := fds[fd := Entry(fds[fd].file, false)];
      r := 0;
    }

    /** reserve_fd. */
    method Reserve(fd: int, ghost file: nat) returns (r: int)
      requires Refers(fds, fd, file)
      modifies this`fds, this`failed
      ensures Refers(fds, r, file) && Clear(r) && (fd <= SETUP_FD ==> fd !in fds)
      ensures forall other, f | Distinct(fd, other) && Refers(old(fds), other, f) :: Refers(fds, other, f) && Distinct(r, other)
      ensures forall files | Inherits(old(fds), files) && file in files :: Inherits(fds, files)
      ensures if r == -1 then fd == -1 || failed else failed == old(failed)
      ensures fd == -1 ==> r == -1
      ensures old(failed) ==> failed
    {
      if fd > SETUP_FD {
        return fd;
      }
      var high := DupFd(fd, 10);
      Close(fd);
      r := high;
    }

    /** place_fd. */
    method Place(fd: int, target: nat, ghost file: nat) returns (placed: bool)
      requires Refers(fds, fd, file)
      modifies this`fds, this`failed
      ensures placed ==> fd != -1 && fds == old(fds)[target := Entry(file, false)]
      ensures if placed then failed == old(failed) else fd == -1 || failed
      ensures forall files | Inherits(old(fds), files) && file in files :: Inherits(fds, files)
      ensures old(failed) ==> failed
    {
      var r: int;
      if fd == target {
        r := KeepOverExec(fd);
        placed := r == 0;
      } else {
        r := Dup2(fd, target);
        placed := r == target;
      }
    }

    /** Every source clear of the standard numbers, so that placing one clobbers no other. */
    method ReserveAll(dataPeer: int, errPeer: int, setupPeer: int, files: Files)
        returns (devNull: int, data: int, err: int, setup: int)
      requires Refers(fds, dataPeer, files.data) && Refers(fds, errPeer, files.err) && Refers(fds, setupPeer, files.setup)
      requires Distinct(dataPeer, errPeer) && Distinct(errPeer, setupPeer) && Distinct(dataPeer, setupPeer)
      requires !failed
      modifies this`fds, this`failed
      ensures Refers(fds, devNull, files.devNull) && Refers(fds, data, files.data) && Refers(fds, err, files.err) && Refers(fds, setup, files.setup)
      ensures Clear(devNull) && Clear(data) && Clear(err) && Clear(setup)
      ensures (devNull == -1 || data == -1 || err == -1 || setup == -1) <==> dataPeer == -1 || errPeer == -1 || setupPeer == -1 || failed
      ensures Inherits(fds, Inherited(old(fds)) + {files.devNull, files.data, files.err, files.setup})
    {
      hide Inherits, Refers;
      ghost var wanted := Inherited(fds) + {files.devNull, files.data, files.err, files.setup};
      InheritsMore(fds, Inherited(fds), wanted);
      devNull := Open(files.devNull);
      data := Reserve(dataPeer, files.data);
      err := Reserve(errPeer, files.err);
      setup := Reserve(setupPeer, files.setup);
      devNull := Reserve(devNull, files.devNull);
    }

    /** False exactly when a source is missing or a call fails. */
    method PlaceAll(insert: bool, devNull: int, data: int, err: int, setup: int, files: Files) returns (placed: bool)
      requires Refers(fds, devNull, files.devNull) && Refers(fds, data, files.data) && Refers(fds, err, files.err) && Refers(fds, setup, files.setup)
      requires Clear(devNull) && Clear(data) && Clear(err) && Clear(setup)
      requires failed ==> devNull == -1 || data == -1 || err == -1 || setup == -1
      modifies this`fds, this`failed
      ensures placed <==> devNull != -1 && data != -1 && err != -1 && setup != -1 && !failed
      ensures old(failed) ==> failed
      ensures placed ==> InPlace(fds, insert, files) && forall fd | fd in {0, 1, 2, SETUP_FD} :: !fds[fd].cloexec
      ensures forall wanted | Inherits(old(fds), wanted) && {files.devNull, files.data, files.err, files.setup} <= wanted :: Inherits(fds, wanted)
    {
      hide Inherits;
      placed := Place(if insert then data else devNull, 0, if insert then files.data else files.devNull);
      if placed {
        placed := Place(if insert then devNull else data, 1, if insert then files.devNull else files.data);
      }
      if placed {
        placed := Place(err, 2, files.err);
      }
      if placed {
        placed := Place(setup, 3, files.setup);
      }
    }

    /**
      exec_helper: either it exits, or it leaves exactly the files wanted at 0 to 3 and
      nothing else that the parent had marked FD_CLOEXEC.
     */
    method ExecHelper(insert: bool, dataPeer: int, errPeer: int, setupPeer: int, files: Files) returns (r: Exec)
      requires Refers(fds, dataPeer, files.data) && Refers(fds, errPeer, files.err) && Refers(fds, setupPeer, files.setup)
      requires Distinct(dataPeer, errPeer) && Distinct(errPeer, setupPeer) && Distinct(dataPeer, setupPeer)
      requires !failed && !refused
      modifies this
      ensures r == Exited(127) <==> dataPeer != -1 && errPeer != -1 && setupPeer != -1 && !failed && refused
      ensures r == Exited(126) <==> dataPeer == -1 || errPeer == -1 || setupPeer == -1 || failed
      ensures r.Exited? ==> r.code == 126 || r.code == 127
      ensures r.Running? ==> InPlace(fds, insert, files) && fds == ExecTable(fds)
      ensures r.Running? ==> Inherits(fds, Inherited(old(fds)) + {files.devNull, files.data, files.err, files.setup})
    {
      ghost var wanted := Inherited(fds) + {files.devNull, files.data, files.err, files.setup};
      var devNull, data, err, setup := ReserveAll(dataPeer, errPeer, setupPeer, files);
      var placed := PlaceAll(insert, devNull, data, err, setup, files);
      if !placed {
        return Exited(126);
      }
      var running := Exec();
      r := if running then Running else Exited(127);
    }
  }

  /** An end whose every descriptor is marked FD_CLOEXEC, and which is not meant for the helper, is not the helper's. */
  lemma BackendEndsAreGone(before: Table, after: Table, files: Files, end: nat)
    requires forall fd | fd in before && before[fd].file == end :: before[fd].cloexec
    requires end !in {files.devNull, files.data, files.err, files.setup}
    requires after == ExecTable(after)
    requires Inherits(after, Inherited(before) + {files.devNull, files.data, files.err, files.setup})
    ensures forall fd | fd in after :: after[fd].file != end
  {
    forall fd | fd in after ensures after[fd].file != end {
      assert fd in ExecTable(after);
    }
  }
}
