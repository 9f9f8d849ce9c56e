/** chDB to Postgres: the slot pool, the multi-insert buffer and the row loop. */
module Insert {
  import opened Bytes
  import opened Rows
  import opened CopyRows
  import opened Buffering

  function RowOf(values: seq<Datum>, isnull: seq<bool>): (r: Row)
    requires |values| == |isnull|
    ensures |r| == |values|
  {
    seq(|values|, i requires 0 <= i < |values| => if isnull[i] then None else Some(values[i]))
  }

  /** A tuple slot: values outlive their row, only the null flags are reset. */
  class Slot {
    var values: seq<Datum>
    var isnull: seq<bool>
    var full: bool

    predicate Shape(natts: nat)
      reads `values, `isnull
    {
      |values| == natts && |isnull| == natts
    }

    function View(): Row
      reads `values, `isnull
      requires |values| == |isnull|
    {
      RowOf(values, isnull)
    }

    /** table_slot_create: the arrays hold whatever they hold. */
    constructor (natts: nat)
      ensures Shape(natts) && !full
    {
      values := seq(natts, _ => 0);
      isnull := seq(natts, _ => false);
      full := false;
      new;
      var garbage: seq<Datum> := *;
      if |garbage| == natts {
        values := garbage;
      }
    }

    /** ExecClearTuple. */
    method Clear()
      modifies `full
      ensures !full
    {
      full := false;
    }

    method Put(a: nat, v: Option<Datum>)
      requires |values| == |isnull| && a < |values|
      modifies `values, `isnull
      ensures Shape(old(|values|)) && View() == old(View())[a := v]
    {
      match v {
        case None => isnull := isnull[a := true];
        case Some(datum) => values, isnull := values[a := datum], isnull[a := false];
      }
      assert View() == old(View())[a := v];
    }

    /** The slot after stored generated columns have been computed into it. */
    method SetRow(row: Row)
      requires Shape(|row|)
      modifies `values, `isnull
      ensures Shape(|row|) && View() == row
    {
      values := seq(|row|, i requires 0 <= i < |row| => if row[i].Some? then row[i].value else 0);
      isnull := seq(|row|, i requires 0 <= i < |row| => row[i].None?);
      assert View() == row;
    }
  }

  // ---- Building a row -----------------------------------------------------

  /** defaults_for: the attribute offsets the defaults fill. */
  method DefaultsFor(desc: seq<Attr>, attnums: seq<nat>) returns (dest: seq<nat>)
    ensures forall a: nat :: a in dest <==> Defaulted(desc, attnums, a)
    ensures forall i, j | 0 <= i < j < |dest| :: dest[i] < dest[j]
  {
    dest := [];
    for attnum := 1 to |desc| + 1
      invariant forall a: nat :: a in dest <==> a < attnum - 1 && Defaulted(desc, attnums, a)
      invariant forall i | 0 <= i < |dest| :: dest[i] < attnum - 1
      invariant forall i, j | 0 <= i < j < |dest| :: dest[i] < dest[j]
    {
      var attr := desc[attnum - 1];
      if attr.dropped || attr.generated || attnum in attnums {
        continue;
      }
      if attr.default.None? {
        continue;
      }
      dest := dest + [attnum - 1];
    }
  }

  /** What the stream columns have filled so far. */
  ghost predicate Filled(row: Row, attnums: seq<nat>, stream: Row, n: nat)
    requires |stream| == |attnums| && n <= |attnums| && ValidAttnums(attnums, |row|)
  {
    && (forall i | 0 <= i < n :: row[attnums[i] - 1] == stream[i])
    && (forall a | 0 <= a < |row| && (a + 1) !in attnums[..n] :: row[a] == None)
  }

  /** pgch_reader_fill_map into a slot whose flags were just set to null. */
  method FillMap(slot: Slot, attnums: seq<nat>, stream: Row)
    requires |slot.values| == |slot.isnull| && ValidAttnums(attnums, |slot.values|) && |stream| == |attnums|
    requires forall a | 0 <= a < |slot.isnull| :: slot.isnull[a]
    modifies slot`values, slot`isnull
    ensures slot.Shape(old(|slot.values|)) && Filled(slot.View(), attnums, stream, |attnums|)
  {
    var natts := |slot.values|;
    for i := 0 to |attnums|
      invariant slot.Shape(natts) && Filled(slot.View(), attnums, stream, i)
    {
      ghost var before := slot.View();
      slot.Put(attnums[i] - 1, stream[i]);
      FilledGrows(before, attnums, stream, i);
    }
  }

  lemma FilledGrows(row: Row, attnums: seq<nat>, stream: Row, i: nat)
    requires |stream| == |attnums| && i < |attnums| && ValidAttnums(attnums, |row|)
    requires Filled(row, attnums, stream, i)
    ensures Filled(row[attnums[i] - 1 := stream[i]], attnums, stream, i + 1)
  {
    assert attnums[..i + 1] == attnums[..i] + [attnums[i]];
  }

  /** fill_defaults. */
  method FillDefaults(slot: Slot, desc: seq<Attr>, dest: seq<nat>, k: nat, seen: Heap)
    requires slot.Shape(|desc|)
    requires forall i | 0 <= i < |dest| :: dest[i] < |desc| && desc[dest[i]].default.Some?
    requires forall i, j | 0 <= i < j < |dest| :: dest[i] < dest[j]
    modifies slot`values, slot`isnull
    ensures slot.Shape(|desc|)
    ensures forall i | 0 <= i < |dest| :: slot.View()[dest[i]] == desc[dest[i]].default.value(k, seen)
    ensures forall a | 0 <= a < |desc| && a !in dest :: slot.View()[a] == old(slot.View())[a]
  {
    for i := 0 to |dest|
      invariant slot.Shape(|desc|)
      invariant forall j | 0 <= j < i :: slot.View()[dest[j]] == desc[dest[j]].default.value(k, seen)
      invariant forall a | 0 <= a < |desc| && a !in dest :: slot.View()[a] == old(slot.View())[a]
    {
      slot.Put(dest[i], desc[dest[i]].default.value(k, seen));
    }
  }

  /** One row: what the slot held before does not matter. */
  method BuildRow(slot: Slot, desc: seq<Attr>, attnums: seq<nat>, dest: seq<nat>, stream: Row, k: nat, seen: Heap)
    requires slot.Shape(|desc|) && ValidAttnums(attnums, |desc|) && |stream| == |attnums|
    requires forall a: nat :: a in dest <==> Defaulted(desc, attnums, a)
    requires forall i, j | 0 <= i < j < |dest| :: dest[i] < dest[j]
    modifies slot
    ensures slot.Shape(|desc|) && slot.full
    ensures slot.View() == Built(desc, attnums, stream, k, seen)
  {
    hide Built, RowOf;
    slot.Clear();
    slot.isnull := seq(|slot.isnull|, _ => true);
    FillMap(slot, attnums, stream);
    ghost var mapped := slot.View();
    forall i | 0 <= i < |dest| ensures Defaulted(desc, attnums, dest[i]) {
      assert dest[i] in dest;
    }
    FillDefaults(slot, desc, dest, k, seen);
    slot.full := true;
    forall a: nat | a < |desc| ensures slot.View()[a] == Built(desc, attnums, stream, k, seen)[a] {
      OneSource(desc, attnums, stream, k, seen, a);
      assert attnums[..|attnums|] == attnums;
      if a in dest {
        var i :| 0 <= i < |dest| && dest[i] == a;
      } else if (a + 1) in attnums {
        var i :| 0 <= i < |attnums| && attnums[i] == a + 1;
        assert mapped[attnums[i] - 1] == stream[i];
      }
    }
  }

  // ---- The buffer -----------------------------------------------------------

  datatype Treated = Raised | Skipped | Counted

  /** The outcome that a fate calls for. */
  function OutcomeOf(f: Fate): Treated
  {
    if f.Refused? then Raised else if Lost(f) then Skipped else Counted
  }

  /** Computing generated columns does not change how many columns there are. */
  ghost predicate KeepsWidth(env: Env)
  {
    forall k: nat, seen: Heap, rel: Rel, row: Row :: |env.compute(k, seen, rel, row)| == |row|
  }

  lemma InsteadEvents(rel: Rel, row: Row)
    ensures EventsOf(Instead(rel, row)) == [InsteadEvent(rel, row)]
  {
  }

  lemma NoEvents(fate: Fate, log: seq<Event>)
    requires fate.Refused? || fate.Suppressed? || fate.Declined?
    ensures EventsOf(fate) == [] && log + EventsOf(fate) == log
  {
  }

  class NativeInsert {
    const env: Env
    const natts: nat
    const buffered: bool
    const slots: array<Slot?>
    var nused: nat
    var bytes: nat
    /** What has been done to the tables. */
    var log: seq<Event>
    /** The slots allocated so far, and the rows waiting in them. */
    ghost var pool: seq<Slot>
    ghost var pending: seq<Row>
    ghost var dropped: seq<Slot>

    /** The pool is a prefix of the array without repeats; all but `done` of the rows waiting are in it. */
    ghost predicate Pooled(done: nat)
      reads this, slots, pool
    {
      && slots.Length == MAX_TUPLES
      && |pending| == nused <= |pool| <= MAX_TUPLES
      && (forall i | 0 <= i < |pool| :: slots[i] == pool[i] && pool[i].Shape(natts))
      && (forall i | |pool| <= i < MAX_TUPLES :: slots[i] == null)
      && (forall i, j | 0 <= i < j < |pool| :: pool[i] != pool[j])
      && (forall i | done <= i < nused :: pool[i].full && pool[i].View() == pending[i])
    }

    ghost predicate Valid()
      reads this, slots, pool
    {
      Pooled(0) && nused < MAX_TUPLES && bytes < MAX_BYTES && (nused == 0 ==> bytes == 0)
    }

    ghost function State(): Buffer
      reads `log, `pending, `bytes
    {
      Buffer(log, pending, bytes)
    }

    constructor (env: Env, natts: nat)
      ensures this.env == env && this.natts == natts && fresh(slots)
      ensures buffered == Bufferable(env)
      ensures Valid() && pool == [] && pending == [] && log == [] && dropped == []
    {
      this.env, this.natts := env, natts;
      buffered := Bufferable(env);
      slots := new Slot?[MAX_TUPLES](_ => null);
      nused, bytes := 0, 0;
      pool, pending, log, dropped := [], [], [], [];
    }

    method AfterRow(rel: Rel, row: Row)
      modifies this`log
      ensures log == old(log) + AfterInsert(rel, row)
    {
      if rel.indices > 0 {
        log := log + [IndexEvent(rel, row)];
      }
      log := log + [AfterEvent(rel, row)];
    }

    /** One row's share of a flush. */
    method FlushRow(i: nat)
      requires Pooled(i) && i < nused
      modifies this`log, pool`full
      ensures Pooled(i + 1) && log == old(log) + AfterInsert(env.target, pending[i])
    {
      hide AfterInsert, RowOf;
      var slot := slots[i];
      AfterRow(env.target, slot.View());
      slot.Clear();
    }

    /** table_multi_insert: the rows waiting, in their order. */
    method MultiInsert()
      requires Pooled(0)
      modifies this`log
      ensures log == old(log) + Heaps(env.target, pending)
    {
      hide RowOf, Heaps;
      NoHeaps(env.target);
      var n := nused;
      for i := 0 to n
        invariant log == old(log) + Heaps(env.target, pending[..i])
      {
        FlushOne(env.target, pending[..i], pending[i]);
        assert pending[..i + 1] == pending[..i] + [pending[i]];
        var slot := slots[i];
        log := log + [HeapEvent(env.target, slot.View())];
      }
      assert pending[..n] == pending;
    }

    /** flush_buffer. */
    method Flush()
      requires Pooled(0) && (nused == 0 ==> bytes == 0)
      modifies this`nused, this`bytes, this`pending, this`log, pool`full
      ensures Pooled(0) && nused == 0 && bytes == 0
      ensures pending == [] && State() == Emptied(env, old(State()))
    {
      hide Part, Heaps, Afters, AfterInsert, RowOf, Flushed;
      if nused == 0 {
        return;
      }
      ghost var rows := pending;
      MultiInsert();
      PartGrows(old(log), env.target, rows, 0);
      var n := nused;
      for i := 0 to n
        invariant nused == n == |rows| && pending == rows && Pooled(i)
        invariant log == Part(old(log), env.target, rows, i)
      {
        FlushRow(i);
        PartGrows(old(log), env.target, rows, i);
      }
      nused, bytes, pending := 0, 0, [];
    }

    /** The slot for the next row: never one in which a row is waiting. */
    method BufferSlot() returns (slot: Slot)
      requires Valid()
      modifies this`pool, slots
      ensures Valid() && fresh(set x | x in pool && x !in old(pool))
      ensures nused < |pool| && slot == pool[nused]
      ensures forall i | 0 <= i < nused :: pool[i] != slot
      ensures old(pool) <= pool
    {
      hide RowOf;
      if slots[nused] == null {
        slot := new Slot(natts);
        slots[nused] := slot;
        pool := pool + [slot];
      }
      slot := slots[nused];
    }

    /** Stores the row that BufferSlot handed out. */
    method BufferStore(slot: Slot)
      requires Valid() && nused < |pool| && slot == pool[nused] && slot.full
      modifies this`nused, this`bytes, this`pending, this`log, pool`full
      ensures Valid() && State() == Put(env, old(State()), old(slot.View()))
    {
      hide RowOf, Flushed;
      ghost var row := slot.View();
      bytes := bytes + env.width(slot.View());
      pending := pending + [row];
      nused := nused + 1;
      if nused >= MAX_TUPLES || bytes >= MAX_BYTES {
        Flush();
      }
    }

    /** One row into `rel`; false when an FDW stored nothing. */
    method InsertRow(k: nat, seen: Heap, rel: Rel, row: Row) returns (inserted: bool)
      modifies this`log
      ensures inserted == (rel.fdw ==> env.foreign(k, seen, rel, row).Some?)
      ensures log == old(log) + EventsOf(
                if !rel.fdw then Stored(rel, row)
                else if inserted then Foreign(rel, env.foreign(k, seen, rel, row).value) else Declined)
    {
      if rel.fdw {
        match env.foreign(k, seen, rel, row)
        case None => return false;
        case Some(stored) =>
          log := log + [ForeignEvent(rel, stored), AfterEvent(rel, stored)];
          return true;
      }
      log := log + [HeapEvent(rel, row)];
      AfterRow(rel, row);
      inserted := true;
    }

    /** The checks, and the row into the buffer or its relation; `beforeRow` is the cached flag. */
    method Treat(k: nat, rel: Rel, beforeRow: bool, slot: Slot, row: Row) returns (out: Treated)
      requires Ready(rel, slot, row) && beforeRow == rel.beforeRow && !rel.insteadRow && KeepsWidth(env)
      modifies this`nused, this`bytes, this`pending, this`log, pool`full, slot`values, slot`isnull
      ensures Valid() && slot.Shape(old(|slot.values|))
      ensures var fate := Insertion(env, k, Visible(old(log)), rel, row);
              out == OutcomeOf(fate) && State() == After(env, buffered, old(State()), fate)
    {
      hide RowOf, EventsOf, Select, Put;
      var seen := Visible(log);
      ghost var fate := Insertion(env, k, seen, rel, row);
      var final := row;
      if rel.constr && rel.generatedStored {
        final := env.compute(k, seen, rel, row);
        if buffered {
          slot.SetRow(final);
        }
      }
      if !rel.fdw && rel.constr && !env.satisfies(seen, rel, final) {
        NoEvents(fate, log);
        return Raised;
      }
      if rel.isPartition && (!env.partitioned || beforeRow) && !env.inPartition(rel, final) {
        NoEvents(fate, log);
        return Raised;
      }
      if buffered {
        BufferStore(slot);
        out := Counted;
      } else {
        var inserted := InsertRow(k, seen, rel, final);
        out := if inserted then Counted else Skipped;
      }
    }

    /** BEFORE ROW and INSTEAD OF triggers by the cached flags, then the rest. */
    method Handle(k: nat, rel: Rel, beforeRow: bool, insteadRow: bool, slot: Slot, row: Row) returns (out: Treated)
      requires Ready(rel, slot, row) && beforeRow == rel.beforeRow && insteadRow == rel.insteadRow && KeepsWidth(env)
      requires buffered ==> !beforeRow && !insteadRow
      modifies this`nused, this`bytes, this`pending, this`log, pool`full, slot`values, slot`isnull
      ensures Valid() && slot.Shape(old(|slot.values|))
      ensures var fate := Handled(env, k, Visible(old(log)), rel, row);
              out == OutcomeOf(fate) && State() == After(env, buffered, old(State()), fate)
    {
      hide RowOf, EventsOf, Select, Insertion, Put, Visible;
      var seen := Visible(log);
      ghost var fate := Handled(env, k, seen, rel, row);
      var now := row;
      if beforeRow {
        match env.before(k, seen, rel, row) {
          case None =>
            NoEvents(fate, log);
            return Skipped;
          case Some(changed) => now := changed;
        }
      }
      if insteadRow {
        log := log + [InsteadEvent(rel, now)];
        InsteadEvents(rel, now);
        return Counted;
      }
      out := Treat(k, rel, beforeRow, slot, now);
    }

    /** The row in hand: for a bufferable target it is in the slot BufferSlot gave. */
    ghost predicate Ready(rel: Rel, slot: Slot, row: Row)
      reads this, slots, pool, slot
    {
      && Valid()
      && |slot.values| == |slot.isnull|
      && (buffered ==>
            && nused < |pool| && slot == pool[nused] && slot.full && slot.View() == row
            && rel == env.target && !rel.fdw)
      && (!buffered ==> slot !in pool)
    }

    /** The end of the copy: nothing stays buffered and each slot is dropped once. */
    method Finish()
      requires Valid() && dropped == []
      modifies this`nused, this`bytes, this`pending, this`log, this`dropped, pool`full
      ensures nused == 0 && pending == [] && log == Whole(env, old(State())) && dropped == pool
    {
      hide RowOf, Flushed;
      FlushNothing(log, env.target);
      Flush();
      var i := 0;
      while i < MAX_TUPLES && slots[i] != null
        invariant Pooled(0) && i <= |pool| && dropped == pool[..i]
        invariant nused == 0 && pending == [] && log == Whole(env, old(State()))
      {
        dropped := dropped + [slots[i]];
        i := i + 1;
      }
    }
  }

  // ---- The copy -------------------------------------------------------------

  /** What chdb_native reads: the header, then rows, and an error at either place. */
  datatype Reader = Reader(headerError: bool, columns: nat, stream: seq<Row>, rowError: bool)

  datatype Outcome = Copied(rows: nat) | Failed

  /** The relation last routed to, and its trigger flags; before that the target's. */
  datatype Cache = Cache(routed: Option<Rel>, beforeRow: bool, insteadRow: bool)

  predicate Fresh(env: Env, c: Cache)
  {
    var rel := if c.routed.Some? then c.routed.value else env.target;
    c.beforeRow == rel.beforeRow && c.insteadRow == rel.insteadRow
  }

  /** How far the copy has come after the rows of `done`. */
  ghost predicate Copying(done: seq<Row>, ins: NativeInsert, counted: nat)
    reads ins
  {
    && ins.buffered == Bufferable(ins.env) && ValidStream(ins.env, done)
    && counted <= |done|
    && Run(ins.env, ins.buffered, done) == Some(Progress(ins.State(), counted, |done| - counted))
  }

  lemma CacheStarts(env: Env)
    ensures Fresh(env, Cache(None, env.target.beforeRow, env.target.insteadRow))
  {
  }

  /** One more row, treated as its fate calls for. */
  lemma RunGrows(env: Env, buffered: bool, done: seq<Row>, s: Row, b: Buffer, counted: nat)
    requires ValidStream(env, done) && |s| == |env.attnums| && counted <= |done|
    requires Run(env, buffered, done) == Some(Progress(b, counted, |done| - counted))
    ensures ValidStream(env, done + [s])
    ensures var f := RowFate(env, |done|, Visible(b.log), s);
            Run(env, buffered, done + [s]) ==
              match OutcomeOf(f)
              case Raised => None
              case Skipped => Some(Progress(After(env, buffered, b, f), counted, |done| + 1 - counted))
              case Counted => Some(Progress(After(env, buffered, b, f), counted + 1, |done| - counted))
  {
    hide RowFate, After, Visible;
    assert (done + [s])[..|done|] == done;
  }

  lemma {:induction false} RefusedStays(env: Env, buffered: bool, stream: seq<Row>, n: nat)
    requires ValidStream(env, stream) && n <= |stream| && Run(env, buffered, stream[..n]).None?
    ensures Run(env, buffered, stream).None?
  {
    hide Next;
    if n < |stream| {
      var front := stream[..|stream| - 1];
      assert front[..n] == stream[..n];
      RefusedStays(env, buffered, front, n);
    } else {
      assert stream[..n] == stream;
    }
  }

  /** The slot for row `k`, filled. */
  method BuildNext(ins: NativeInsert, root: Slot, dest: seq<nat>, stream: Row, k: nat) returns (slot: Slot)
    requires ins.Valid() && ins.natts == |ins.env.desc| && root !in ins.pool && root.Shape(ins.natts)
    requires ValidAttnums(ins.env.attnums, ins.natts) && |stream| == |ins.env.attnums|
    requires forall a: nat :: a in dest <==> Defaulted(ins.env.desc, ins.env.attnums, a)
    requires forall i, j | 0 <= i < j < |dest| :: dest[i] < dest[j]
    modifies ins`pool, ins.slots, ins.pool, root
    ensures ins.Valid() && root !in ins.pool && root.Shape(ins.natts)
    ensures fresh(set x | x in ins.pool && x !in old(ins.pool))
    ensures slot.Shape(ins.natts) && slot.full
    ensures slot.View() == Built(ins.env.desc, ins.env.attnums, stream, k, Visible(ins.log))
    ensures if ins.buffered then ins.nused < |ins.pool| && slot == ins.pool[ins.nused] else slot == root
  {
    hide RowOf, Built, Defaulted, ValidAttnums, Visible;
    slot := root;
    if ins.buffered {
      slot := ins.BufferSlot();
    }
    BuildRow(slot, ins.env.desc, ins.env.attnums, dest, stream, k, Visible(ins.log));
  }

  /** The row's relation and its form there; the cached flags are refreshed when the relation changes. */
  method Route(env: Env, k: nat, seen: Heap, row: Row, cache: Cache) returns (to: Option<Rel>, row': Row, cache': Cache)
    requires Fresh(env, cache) && (!env.partitioned ==> cache.routed.None?)
    ensures Fresh(env, cache') && (!env.partitioned ==> cache'.routed.None?)
    ensures Routed(env, k, seen, row) == if to.Some? then Some((to.value, row')) else None
    ensures to.Some? ==> cache'.beforeRow == to.value.beforeRow && cache'.insteadRow == to.value.insteadRow
  {
    to, row', cache' := Some(env.target), row, cache;
    if env.partitioned {
      to := env.route(k, seen, row);
      if to.Some? {
        var rel := to.value;
        if cache.routed != Some(rel) {
          cache' := Cache(Some(rel), rel.beforeRow, rel.insteadRow);
        }
        row' := env.convert(rel, row);
      }
    }
  }

  /** One turn of the loop. */
  method CopyRow(ins: NativeInsert, root: Slot, dest: seq<nat>, stream: Row, k: nat, cache: Cache)
      returns (out: Treated, cache': Cache)
    requires ins.Valid() && ins.natts == |ins.env.desc| && root !in ins.pool && root.Shape(ins.natts)
    requires ValidAttnums(ins.env.attnums, ins.natts) && |stream| == |ins.env.attnums| && KeepsWidth(ins.env)
    requires forall a: nat :: a in dest <==> Defaulted(ins.env.desc, ins.env.attnums, a)
    requires forall i, j | 0 <= i < j < |dest| :: dest[i] < dest[j]
    requires Fresh(ins.env, cache) && (!ins.env.partitioned ==> cache.routed.None?)
    requires ins.buffered == Bufferable(ins.env)
    modifies ins`pool, ins`nused, ins`bytes, ins`pending, ins`log, ins.slots, ins.pool, root
    ensures ins.Valid() && root !in ins.pool && root.Shape(ins.natts)
    ensures fresh(set x | x in ins.pool && x !in old(ins.pool))
    ensures Fresh(ins.env, cache') && (!ins.env.partitioned ==> cache'.routed.None?)
    ensures var fate := RowFate(ins.env, k, Visible(old(ins.log)), stream);
            out == OutcomeOf(fate) && (!out.Raised? ==> ins.State() == After(ins.env, ins.buffered, old(ins.State()), fate))
    ensures out.Raised? ==> ins.State() == old(ins.State())
  {
    hide RowOf, Built, Defaulted, ValidAttnums, Handled, EventsOf, Visible, Put;
    var seen := Visible(ins.log);
    var slot := BuildNext(ins, root, dest, stream, k);
    var row := slot.View();
    var to;
    to, row, cache' := Route(ins.env, k, seen, row, cache);
    if to.None? {
      return Raised, cache';
    }
    out := ins.Handle(k, to.value, cache'.beforeRow, cache'.insteadRow, slot, row);
    if out.Raised? {
      RefusalDoesNothing(ins.env, ins.buffered, old(ins.State()));
    }
  }

  lemma RefusalDoesNothing(env: Env, buffered: bool, b: Buffer)
    ensures After(env, buffered, b, Refused) == b
  {
  }

  /**
    What a copy that ended well amounts to: the run of the loop, with the buffer
    flushed; its count is of rows that reached their destination, each of them is what
    triggers and the rest made of its own row of the stream, and each row in a table
    was sound when it was checked.
   */
  ghost predicate Kept(env: Env, stream: seq<Row>, counted: nat, log: seq<Event>)
    requires ValidStream(env, stream)
  {
    var run := Run(env, Bufferable(env), stream);
    && run.Some? && log == Whole(env, run.value.buffer)
    && counted == run.value.counted == |stream| - run.value.lost
    && counted == |Select(log, IsKept)| + |Select(log, IsInstead)|
    && (exists from, via :: Accounted(env, stream, Visible(log), Select(log, IsInstead), from, via, Lag(Bufferable(env))))
    && (RoutingIsSound(env) && KeysAreNotGenerated(env) ==>
          AllSound(env, Visible(log), Lag(Bufferable(env))))
  }

  /** Without a buffer the outcome and the work of each kind, in its order, would be the same. */
  ghost predicate SameAsUnbuffered(env: Env, stream: seq<Row>, failed: bool, counted: nat, log: seq<Event>)
    requires ValidStream(env, stream)
  {
    var run := Run(env, false, stream);
    && (failed <==> run.None?)
    && (run.Some? ==> counted == run.value.counted && Agree(log, Whole(env, run.value.buffer)))
  }

  lemma RunIsKept(env: Env, stream: seq<Row>)
    requires ValidStream(env, stream) && Run(env, Bufferable(env), stream).Some?
    ensures var run := Run(env, Bufferable(env), stream).value;
            Kept(env, stream, run.counted, Whole(env, run.buffer))
  {
    hide Run, Select, AllSound, Accounted, RoutingIsSound, KeysAreNotGenerated, Whole, Bufferable;
    RowsAreConserved(env, Bufferable(env), stream);
    var from, via := RunAccounts(env, Bufferable(env), stream);
    if RoutingIsSound(env) && KeysAreNotGenerated(env) {
      RunIsSound(env, Bufferable(env), stream);
    }
  }

  lemma RunIsAsUnbuffered(env: Env, stream: seq<Row>, failed: bool, counted: nat, log: seq<Event>)
    requires ValidStream(env, stream) && (Bufferable(env) ==> IgnoresTables(env))
    requires failed <==> Run(env, Bufferable(env), stream).None?
    requires !failed ==> Kept(env, stream, counted, log)
    ensures SameAsUnbuffered(env, stream, failed, counted, log)
  {
    hide Run, Agree, IgnoresTables, Whole, Bufferable, AllSound, RoutingIsSound, KeysAreNotGenerated, Select, Accounted;
    IgnoringTablesIsEnough(env);
    BlindRunsMatch(env, stream);
  }

  /** A row of the stream that no partition takes, or that fails a check. */
  ghost predicate SomeTurnedAway(env: Env, stream: seq<Row>)
  {
    exists k, seen, rel, way | 0 <= k < |stream| :: TurnedAway(env, k, seen, stream[k], rel, way)
  }

  lemma RefusedRunTurnsAway(env: Env, stream: seq<Row>)
    requires ValidStream(env, stream) && Run(env, Bufferable(env), stream).None?
    ensures SomeTurnedAway(env, stream)
  {
    hide Run, TurnedAway;
    var k := RunStopsAt(env, Bufferable(env), stream);
  }

  /** chdb_copy_receive. */
  method Receive(env: Env, reader: Reader)
      returns (r: Outcome, log: seq<Event>, ghost pool: seq<Slot>, ghost dropped: seq<Slot>)
    requires ValidAttnums(env.attnums, |env.desc|) && KeepsWidth(env)
    requires reader.columns == |env.attnums| ==> ValidStream(env, reader.stream)
    ensures reader.headerError || (reader.columns != 0 && reader.columns != |env.attnums|) ==> r == Failed && log == []
    ensures !reader.headerError && reader.columns == 0 ==> r == Copied(0) && log == []
    ensures !reader.headerError && reader.columns == |env.attnums| != 0 ==>
              && (r.Failed? <==> Run(env, Bufferable(env), reader.stream).None? || reader.rowError)
              && (r.Copied? ==> Kept(env, reader.stream, r.rows, log))
    ensures !reader.headerError && reader.columns == |env.attnums| != 0 && !reader.rowError && r.Failed? ==>
              SomeTurnedAway(env, reader.stream)
    ensures !reader.headerError && reader.columns == |env.attnums| != 0 && !reader.rowError
            && (Bufferable(env) ==> IgnoresTables(env)) ==>
              SameAsUnbuffered(env, reader.stream, r.Failed?, if r.Copied? then r.rows else 0, log)
    ensures r.Copied? ==> pool == dropped
    ensures Ordered(log) && Balanced(log)
  {
    hide RowOf, Ordered, Balanced, Run, Kept, SameAsUnbuffered, IgnoresTables, Bufferable, KeepsWidth, SomeTurnedAway;
    OrderedEmpty();
    log, pool, dropped := [], [], [];
    if reader.headerError {
      return Failed, log, pool, dropped;
    }
    if reader.columns == 0 {
      return Copied(0), log, pool, dropped;
    }
    if reader.columns != |env.attnums| {
      return Failed, log, pool, dropped;
    }
    r, log, pool, dropped := InsertAll(env, reader.stream, reader.rowError);
    if !reader.rowError && r.Failed? {
      RefusedRunTurnsAway(env, reader.stream);
    }
    if !reader.rowError && (Bufferable(env) ==> IgnoresTables(env)) {
      RunIsAsUnbuffered(env, reader.stream, r.Failed?, if r.Copied? then r.rows else 0, log);
    }
  }

  /** The row loop; it stops short when a row is refused. */
  method CopyAll(ins: NativeInsert, root: Slot, stream: seq<Row>) returns (raised: bool, counted: nat)
    requires ins.Valid() && ins.natts == |ins.env.desc| && root !in ins.pool && root.Shape(ins.natts)
    requires ValidAttnums(ins.env.attnums, ins.natts) && KeepsWidth(ins.env) && ValidStream(ins.env, stream)
    requires ins.buffered == Bufferable(ins.env) && ins.State() == Buffer([], [], 0)
    modifies ins`pool, ins`nused, ins`bytes, ins`pending, ins`log, ins.slots, ins.pool, root
    ensures ins.Valid() && fresh(set x | x in ins.pool && x !in old(ins.pool))
    ensures raised <==> Run(ins.env, ins.buffered, stream).None?
    ensures !raised ==> Copying(stream, ins, counted)
    ensures Tidy(ins.buffered, ins.State())
  {
    hide RowOf, Tidy, RowFate, Bufferable, Defaulted, ValidAttnums, Fresh, Run, After, Visible, KeepsWidth, ValidStream;
    var env := ins.env;
    var dest := DefaultsFor(env.desc, env.attnums);
    var cache := Cache(None, env.target.beforeRow, env.target.insteadRow);
    CacheStarts(env);
    RunStarts(env, ins.buffered);
    counted := 0;
    for k := 0 to |stream|
      invariant fresh(set x | x in ins.pool && x !in old(ins.pool))
      invariant ins.Valid() && root !in ins.pool && root.Shape(ins.natts)
      invariant Fresh(env, cache) && (!env.partitioned ==> cache.routed.None?)
      invariant Copying(stream[..k], ins, counted)
    {
      ghost var was := ins.State();
      StreamRow(env, stream, k);
      var out;
      out, cache := CopyRow(ins, root, dest, stream[k], k, cache);
      RunGrows(env, ins.buffered, stream[..k], stream[k], was, counted);
      if out.Raised? {
        RefusedStays(env, ins.buffered, stream, k + 1);
        RunIsOrdered(env, ins.buffered, stream[..k]);
        return true, counted;
      }
      if out.Counted? {
        counted := counted + 1;
      }
    }
    assert stream[..|stream|] == stream;
    RunIsOrdered(env, ins.buffered, stream);
    raised := false;
  }

  lemma StreamRow(env: Env, stream: seq<Row>, k: nat)
    requires ValidStream(env, stream) && k < |stream|
    ensures |stream[k]| == |env.attnums| && stream[..k + 1] == stream[..k] + [stream[k]]
  {
  }

  /** The row loop and what follows it. */
  method InsertAll(env: Env, stream: seq<Row>, rowError: bool)
      returns (r: Outcome, log: seq<Event>, ghost pool: seq<Slot>, ghost dropped: seq<Slot>)
    requires ValidAttnums(env.attnums, |env.desc|) && KeepsWidth(env) && ValidStream(env, stream)
    ensures r.Failed? <==> Run(env, Bufferable(env), stream).None? || rowError
    ensures r.Copied? ==> Kept(env, stream, r.rows, log) && pool == dropped
    ensures Ordered(log) && Balanced(log)
  {
    hide RowOf, Ordered, Balanced, Kept, Bufferable, ValidAttnums, Run, KeepsWidth, Flushed;
    var ins := new NativeInsert(env, |env.desc|);
    var root := new Slot(|env.desc|);
    var raised, counted := CopyAll(ins, root, stream);
    if raised || rowError {
      return Failed, ins.log, ins.pool, ins.dropped;
    }
    RunIsKept(env, stream);
    FlushKeepsOrder(ins.log, env.target, ins.pending);
    ins.Finish();
    return Copied(counted), ins.log, ins.pool, ins.dropped;
  }

  lemma RunStarts(env: Env, buffered: bool)
    ensures ValidStream(env, []) && Run(env, buffered, []) == Some(Progress(Buffer([], [], 0), 0, 0))
  {
  }
}
