/**
  What the multi-insert buffer does to a copy: the order of a flush, the loop with and
  without the buffer, and exactly when the two are the same.
 */
module Buffering {
  import opened Bytes
  import opened Rows
  import opened CopyRows

  const MAX_TUPLES := 1000
  const MAX_BYTES := 64 * 1024

  /** A buffer belongs to one table, and no trigger may look for rows still in it. */
  predicate Bufferable(env: Env)
  {
    !env.partitioned && !env.target.fdw && !env.target.beforeRow && !env.target.insteadRow
  }

  // ---- The order of a flush -----------------------------------------------

  /** table_multi_insert: all the rows, and no other work. */
  function Heaps(rel: Rel, rows: seq<Row>): seq<Event>
  {
    if rows == [] then []
    else Heaps(rel, rows[..|rows| - 1]) + [HeapEvent(rel, rows[|rows| - 1])]
  }

  function Afters(rel: Rel, rows: seq<Row>): seq<Event>
  {
    if rows == [] then []
    else Afters(rel, rows[..|rows| - 1]) + AfterInsert(rel, rows[|rows| - 1])
  }

  function Flushed(rel: Rel, rows: seq<Row>): seq<Event>
  {
    Heaps(rel, rows) + Afters(rel, rows)
  }

  function Tagged(rel: Rel, rows: seq<Row>): (r: seq<(Rel, Row)>)
  {
    seq(|rows|, i requires 0 <= i < |rows| => (rel, rows[i]))
  }

  function TaggedIf(tag: bool, rel: Rel, rows: seq<Row>): (r: seq<(Rel, Row)>)
  {
    if tag then Tagged(rel, rows) else []
  }

  lemma FlushOne(rel: Rel, rows: seq<Row>, row: Row)
    ensures Heaps(rel, rows + [row]) == Heaps(rel, rows) + [HeapEvent(rel, row)]
    ensures Afters(rel, rows + [row]) == Afters(rel, rows) + AfterInsert(rel, row)
    ensures forall tag :: TaggedIf(tag, rel, rows + [row]) == TaggedIf(tag, rel, rows) + if tag then [(rel, row)] else []
  {
    assert (rows + [row])[..|rows|] == rows;
  }

  /** A wanted event is wanted whatever its row. */
  ghost predicate RowBlind(want: Event -> bool, rel: Rel)
  {
    && (forall a, b :: want(HeapEvent(rel, a)) == want(HeapEvent(rel, b)))
    && (forall a, b :: want(IndexEvent(rel, a)) == want(IndexEvent(rel, b)))
    && (forall a, b :: want(AfterEvent(rel, a)) == want(AfterEvent(rel, b)))
  }

  lemma {:induction false} SelectHeaps(rel: Rel, rows: seq<Row>, want: Event -> bool)
    requires RowBlind(want, rel)
    ensures Select(Heaps(rel, rows), want) == TaggedIf(want(HeapEvent(rel, [])), rel, rows)
  {
    if rows != [] {
      var front, row := rows[..|rows| - 1], rows[|rows| - 1];
      SelectHeaps(rel, front, want);
      assert rows == front + [row];
      FlushOne(rel, front, row);
      SelectOne(Heaps(rel, front), HeapEvent(rel, row), want);
      assert want(HeapEvent(rel, row)) == want(HeapEvent(rel, []));
    }
  }

  lemma SelectAfter(log: seq<Event>, rel: Rel, row: Row, want: Event -> bool)
    requires RowBlind(want, rel)
    requires !(want(IndexEvent(rel, [])) && want(AfterEvent(rel, [])))
    ensures Select(log + AfterInsert(rel, row), want) ==
            Select(log, want) + TaggedIf((rel.indices > 0 && want(IndexEvent(rel, []))) || want(AfterEvent(rel, [])), rel, [row])
  {
    hide Select;
    var i, a := IndexEvent(rel, row), AfterEvent(rel, row);
    assert want(i) == want(IndexEvent(rel, [])) && want(a) == want(AfterEvent(rel, []));
    SelectOne(log, a, want);
    if rel.indices > 0 {
      SelectOne(log, i, want);
      SelectOne(log + [i], a, want);
      assert log + AfterInsert(rel, row) == (log + [i]) + [a];
    } else {
      assert log + AfterInsert(rel, row) == log + [a];
    }
  }

  lemma {:induction false} SelectAfters(rel: Rel, rows: seq<Row>, want: Event -> bool)
    requires RowBlind(want, rel)
    requires !(want(IndexEvent(rel, [])) && want(AfterEvent(rel, [])))
    ensures Select(Afters(rel, rows), want) ==
            TaggedIf((rel.indices > 0 && want(IndexEvent(rel, []))) || want(AfterEvent(rel, [])), rel, rows)
  {
    hide RowBlind, AfterInsert;
    if rows != [] {
      var front, row := rows[..|rows| - 1], rows[|rows| - 1];
      SelectAfters(rel, front, want);
      assert rows == front + [row];
      FlushOne(rel, front, row);
      SelectAfter(Afters(rel, front), rel, row, want);
    }
  }

  /** Two logs hold the same work of every kind, each kind in the same order. */
  predicate Agree(a: seq<Event>, b: seq<Event>)
  {
    && Select(a, IsHeap) == Select(b, IsHeap)
    && Select(a, IsIndexable) == Select(b, IsIndexable)
    && Select(a, IsIndex) == Select(b, IsIndex)
    && Select(a, IsKept) == Select(b, IsKept)
    && Select(a, IsAfter) == Select(b, IsAfter)
    && Select(a, IsInstead) == Select(b, IsInstead)
  }

  /** What one flush adds to the work of one kind. */
  lemma SelectFlushed(log: seq<Event>, rel: Rel, rows: seq<Row>, want: Event -> bool)
    requires RowBlind(want, rel)
    requires !(want(IndexEvent(rel, [])) && want(AfterEvent(rel, [])))
    ensures Select(log + Flushed(rel, rows), want) ==
            Select(log, want) + TaggedIf(want(HeapEvent(rel, [])), rel, rows)
            + TaggedIf((rel.indices > 0 && want(IndexEvent(rel, []))) || want(AfterEvent(rel, [])), rel, rows)
  {
    hide Select, RowBlind, TaggedIf, Heaps, Afters;
    SelectHeaps(rel, rows, want);
    SelectAfters(rel, rows, want);
    SelectAppend(Heaps(rel, rows), Afters(rel, rows), want);
    SelectAppend(log, Flushed(rel, rows), want);
  }

  /** A row stored before the flush or right after it: the same work of any one kind. */
  lemma SelectDelayed(log: seq<Event>, rel: Rel, rows: seq<Row>, row: Row, want: Event -> bool)
    requires RowBlind(want, rel)
    requires !(want(IndexEvent(rel, [])) && want(AfterEvent(rel, [])))
    requires !want(HeapEvent(rel, [])) || !(want(IndexEvent(rel, [])) || want(AfterEvent(rel, [])))
    ensures Select(log + Flushed(rel, rows + [row]), want) ==
            Select((log + Flushed(rel, rows)) + EventsOf(Stored(rel, row)), want)
  {
    hide Select, RowBlind, Heaps, Afters, AfterInsert, Flushed;
    SelectFlushed(log, rel, rows + [row], want);
    SelectFlushed(log, rel, rows, want);
    FlushOne(rel, rows, row);
    FlushOne(rel, [], row);
    assert [] + [row] == [row];
    var l1 := log + Flushed(rel, rows);
    HeapIsHeap(rel, row, want);
    SelectOne(l1, HeapEvent(rel, row), want);
    SelectAfter(l1 + [HeapEvent(rel, row)], rel, row, want);
    assert l1 + EventsOf(Stored(rel, row)) == (l1 + [HeapEvent(rel, row)]) + AfterInsert(rel, row);
  }

  lemma HeapIsHeap(rel: Rel, row: Row, want: Event -> bool)
    requires RowBlind(want, rel)
    ensures want(HeapEvent(rel, row)) == want(HeapEvent(rel, []))
  {
  }

  /** Putting a row in the buffer is storing it at once, but for how the kinds of work interleave. */
  lemma BufferingDelays(log: seq<Event>, rel: Rel, rows: seq<Row>, row: Row)
    ensures Agree(log + Flushed(rel, rows + [row]), (log + Flushed(rel, rows)) + EventsOf(Stored(rel, row)))
  {
    hide Select, Flushed, EventsOf;
    SelectDelayed(log, rel, rows, row, IsHeap);
    SelectDelayed(log, rel, rows, row, IsIndexable);
    SelectDelayed(log, rel, rows, row, IsIndex);
    SelectDelayed(log, rel, rows, row, IsKept);
    SelectDelayed(log, rel, rows, row, IsAfter);
    SelectDelayed(log, rel, rows, row, IsInstead);
  }

  lemma AgreeAppend(a: seq<Event>, b: seq<Event>, c: seq<Event>, d: seq<Event>)
    requires Agree(a, b + d) && Agree(b, c)
    ensures Agree(a, c + d)
  {
    hide Select;
    forall want ensures Select(b + d, want) == Select(b, want) + Select(d, want) && Select(c + d, want) == Select(c, want) + Select(d, want) {
      SelectAppend(b, d, want);
      SelectAppend(c, d, want);
    }
  }

  /** Every row is in the heap before any of the flush's other work. */
  lemma {:induction false} HeapsKeepOrder(log: seq<Event>, rel: Rel, rows: seq<Row>)
    requires Ordered(log) && Balanced(log)
    ensures Ordered(log + Heaps(rel, rows))
  {
    hide Select, Ordered, InStep;
    if rows == [] {
      assert log + Heaps(rel, rows) == log;
    } else {
      var front, row := rows[..|rows| - 1], rows[|rows| - 1];
      HeapsKeepOrder(log, rel, front);
      HeapsInStep(log, rel, rows);
      assert log + Heaps(rel, rows) == (log + Heaps(rel, front)) + [HeapEvent(rel, row)];
      OrderedGrows(log + Heaps(rel, front), HeapEvent(rel, row));
    }
  }

  lemma HeapsInStep(log: seq<Event>, rel: Rel, rows: seq<Row>)
    requires Balanced(log)
    ensures InStep(log + Heaps(rel, rows))
  {
    hide Select, Heaps;
    IndexPart(log, rel, rows, 0);
    AfterPart(log, rel, rows, 0);
    assert Heaps(rel, rows) + Afters(rel, rows[..0]) == Heaps(rel, rows);
  }

  /** The index lists compared, once the work of the first `n` rows of a flush is done. */
  lemma IndexPart(log: seq<Event>, rel: Rel, rows: seq<Row>, n: nat)
    requires n <= |rows|
    ensures var l := log + (Heaps(rel, rows) + Afters(rel, rows[..n]));
            && Select(l, IsIndexable) == Select(log, IsIndexable) + TaggedIf(rel.indices > 0, rel, rows)
            && Select(l, IsIndex) == Select(log, IsIndex) + TaggedIf(rel.indices > 0, rel, rows[..n])
  {
    hide Select, Heaps, Afters;
    SelectPart(log, rel, rows, n, IsIndexable);
    SelectPart(log, rel, rows, n, IsIndex);
  }

  /** The same for the AFTER ROW events. */
  lemma AfterPart(log: seq<Event>, rel: Rel, rows: seq<Row>, n: nat)
    requires n <= |rows|
    ensures var l := log + (Heaps(rel, rows) + Afters(rel, rows[..n]));
            && Select(l, IsKept) == Select(log, IsKept) + Tagged(rel, rows)
            && Select(l, IsAfter) == Select(log, IsAfter) + Tagged(rel, rows[..n])
  {
    hide Select, Heaps, Afters;
    SelectPart(log, rel, rows, n, IsKept);
    SelectPart(log, rel, rows, n, IsAfter);
  }

  lemma SelectPart(log: seq<Event>, rel: Rel, rows: seq<Row>, n: nat, want: Event -> bool)
    requires n <= |rows| && RowBlind(want, rel)
    requires !(want(IndexEvent(rel, [])) && want(AfterEvent(rel, [])))
    ensures Select(log + (Heaps(rel, rows) + Afters(rel, rows[..n])), want) ==
            Select(log, want) + TaggedIf(want(HeapEvent(rel, [])), rel, rows)
            + TaggedIf((rel.indices > 0 && want(IndexEvent(rel, []))) || want(AfterEvent(rel, [])), rel, rows[..n])
  {
    hide Select, RowBlind, TaggedIf, Heaps, Afters;
    SelectHeaps(rel, rows, want);
    SelectAfters(rel, rows[..n], want);
    SelectAppend(Heaps(rel, rows), Afters(rel, rows[..n]), want);
    SelectAppend(log, Heaps(rel, rows) + Afters(rel, rows[..n]), want);
  }

  ghost function Part(log: seq<Event>, rel: Rel, rows: seq<Row>, n: nat): seq<Event>
    requires n <= |rows|
  {
    log + (Heaps(rel, rows) + Afters(rel, rows[..n]))
  }

  lemma PartInStep(log: seq<Event>, rel: Rel, rows: seq<Row>, n: nat)
    requires Balanced(log) && n <= |rows|
    ensures InStep(Part(log, rel, rows, n))
  {
    hide Select, Heaps, Afters;
    IndexPart(log, rel, rows, n);
    AfterPart(log, rel, rows, n);
    assert rows == rows[..n] + rows[n..];
    assert Tagged(rel, rows) == Tagged(rel, rows[..n]) + Tagged(rel, rows[n..]);
  }

  lemma PartGrows(log: seq<Event>, rel: Rel, rows: seq<Row>, n: nat)
    requires n < |rows|
    ensures Part(log, rel, rows, 0) == log + Heaps(rel, rows)
    ensures Part(log, rel, rows, n + 1) == Part(log, rel, rows, n) + AfterInsert(rel, rows[n])
    ensures Part(log, rel, rows, |rows|) == log + Flushed(rel, rows)
  {
    hide Heaps;
    assert rows[..n + 1] == rows[..n] + [rows[n]] && rows[..|rows|] == rows;
    FlushOne(rel, rows[..n], rows[n]);
  }

  /** One row's index entries and triggers, between two states that are in step. */
  lemma RowsWork(l: seq<Event>, rel: Rel, row: Row)
    requires Ordered(l) && InStep(l + AfterInsert(rel, row))
    ensures Ordered(l + AfterInsert(rel, row))
  {
    hide Select, Ordered;
    var i, a := IndexEvent(rel, row), AfterEvent(rel, row);
    OrderedNow(l);
    if rel.indices > 0 {
      var m := l + [i];
      assert l + AfterInsert(rel, row) == m + [a];
      SelectEvent(l, i);
      SelectEvent(m, a);
      assert Select(m + [a], IsIndex) == Select(m, IsIndex) && Select(m + [a], IsIndexable) == Select(m, IsIndexable);
      assert Select(m, IsAfter) == Select(l, IsAfter) && Select(m, IsKept) == Select(l, IsKept);
      OrderedGrows(l, i);
      OrderedGrows(l + [i], a);
    } else {
      assert l + AfterInsert(rel, row) == l + [a];
      OrderedGrows(l, a);
    }
  }

  lemma OrderedNow(log: seq<Event>)
    requires Ordered(log)
    ensures InStep(log)
  {
    assert log[..|log|] == log;
  }

  lemma {:induction false} PartsKeepOrder(log: seq<Event>, rel: Rel, rows: seq<Row>, n: nat)
    requires Ordered(log) && Balanced(log) && 0 < |rows| && n <= |rows|
    ensures Ordered(Part(log, rel, rows, n))
  {
    hide Ordered, InStep, Part, Balanced, AfterInsert;
    if n == 0 {
      HeapsKeepOrder(log, rel, rows);
      PartGrows(log, rel, rows, 0);
    } else {
      PartsKeepOrder(log, rel, rows, n - 1);
      PartGrows(log, rel, rows, n - 1);
      PartInStep(log, rel, rows, n);
      RowsWork(Part(log, rel, rows, n - 1), rel, rows[n - 1]);
    }
  }

  /** A flush leaves every row with one of each, and at no moment is work done for a row not in the heap. */
  lemma FlushKeepsOrder(log: seq<Event>, rel: Rel, rows: seq<Row>)
    requires Ordered(log) && Balanced(log)
    ensures Ordered(log + Flushed(rel, rows)) && Balanced(log + Flushed(rel, rows))
  {
    hide Ordered, Select, Part;
    if rows == [] {
      assert log + Flushed(rel, rows) == log;
    } else {
      PartsKeepOrder(log, rel, rows, |rows|);
      PartGrows(log, rel, rows, 0);
      FlushBalances(log, rel, rows);
    }
  }

  lemma FlushBalances(log: seq<Event>, rel: Rel, rows: seq<Row>)
    requires Balanced(log)
    ensures Balanced(log + Flushed(rel, rows))
  {
    hide Select, Heaps, Afters;
    IndexPart(log, rel, rows, |rows|);
    AfterPart(log, rel, rows, |rows|);
    assert rows[..|rows|] == rows;
  }

  lemma NoHeaps(rel: Rel)
    ensures Heaps(rel, []) == []
  {
  }

  lemma FlushNothing(log: seq<Event>, rel: Rel)
    ensures log + Flushed(rel, []) == log
  {
  }

  // ---- The loop, with the buffer or without -----------------------------------

  /** The work done, the rows waiting, and their size. */
  datatype Buffer = Buffer(log: seq<Event>, pending: seq<Row>, bytes: nat)

  datatype Progress = Progress(buffer: Buffer, counted: nat, lost: nat)

  /** The work there would be if the buffer were flushed now. */
  function Whole(env: Env, b: Buffer): seq<Event>
  {
    b.log + Flushed(env.target, b.pending)
  }

  function Emptied(env: Env, b: Buffer): Buffer
  {
    if b.pending == [] then b else Buffer(Whole(env, b), [], 0)
  }

  /** buffer_store. */
  function Put(env: Env, b: Buffer, row: Row): Buffer
  {
    var more := Buffer(b.log, b.pending + [row], b.bytes + env.width(row));
    if |more.pending| >= MAX_TUPLES || more.bytes >= MAX_BYTES then Emptied(env, more) else more
  }

  /** The buffer once a row has met its fate. */
  function After(env: Env, buffered: bool, b: Buffer, f: Fate): Buffer
  {
    if buffered && f.Stored? then Put(env, b, f.row) else b.(log := b.log + EventsOf(f))
  }

  predicate ValidStream(env: Env, stream: seq<Row>)
  {
    forall k | 0 <= k < |stream| :: |stream[k]| == |env.attnums|
  }

  /** One turn: the row is built and judged by what the tables hold, not by what waits. */
  function Next(env: Env, buffered: bool, k: nat, s: Row, p: Progress): Option<Progress>
    requires |s| == |env.attnums|
  {
    var f := RowFate(env, k, Visible(p.buffer.log), s);
    var after := After(env, buffered, p.buffer, f);
    if f.Refused? then None
    else if Lost(f) then Some(Progress(after, p.counted, p.lost + 1))
    else Some(Progress(after, p.counted + 1, p.lost))
  }

  /** The loop over a stream; None once a row has been refused. */
  function Run(env: Env, buffered: bool, stream: seq<Row>): Option<Progress>
    requires ValidStream(env, stream)
  {
    if stream == [] then Some(Progress(Buffer([], [], 0), 0, 0))
    else
      var k := |stream| - 1;
      match Run(env, buffered, stream[..k])
      case None => None
      case Some(p) => Next(env, buffered, k, stream[k], p)
  }

  // ---- Order and counts, over every run -----------------------------------------

  /** What every turn of the loop keeps. */
  ghost predicate Tidy(buffered: bool, b: Buffer)
  {
    && |b.pending| < MAX_TUPLES && b.bytes < MAX_BYTES && (!buffered ==> b.pending == [])
    && Ordered(b.log) && Balanced(b.log)
  }

  /** A row bound for a bufferable target is refused or stored there. */
  lemma BufferableFate(env: Env, k: nat, seen: Heap, row: Row)
    requires Bufferable(env)
    ensures var f := FateOf(env, k, seen, row); f.Refused? || (f.Stored? && f.rel == env.target)
  {
  }

  /** A fate that this loop can meet. */
  predicate Possible(env: Env, buffered: bool, f: Fate)
  {
    buffered ==> f.Refused? || (f.Stored? && f.rel == env.target)
  }

  lemma PutIsTidy(env: Env, b: Buffer, row: Row)
    requires Tidy(true, b)
    ensures Tidy(true, Put(env, b, row))
    ensures Whole(env, Put(env, b, row)) == b.log + Flushed(env.target, b.pending + [row])
  {
    hide Ordered, Balanced, Flushed;
    FlushKeepsOrder(b.log, env.target, b.pending + [row]);
    FlushNothing(b.log + Flushed(env.target, b.pending + [row]), env.target);
  }

  lemma AfterIsTidy(env: Env, buffered: bool, b: Buffer, f: Fate)
    requires Tidy(buffered, b) && Possible(env, buffered, f)
    ensures Tidy(buffered, After(env, buffered, b, f))
    ensures Agree(Whole(env, After(env, buffered, b, f)), Whole(env, b) + EventsOf(f))
    ensures !buffered ==> Whole(env, After(env, buffered, b, f)) == Whole(env, b) + EventsOf(f)
  {
    hide Ordered, Balanced, Flushed, Put, Select;
    if buffered && f.Stored? {
      PutIsTidy(env, b, f.row);
      BufferingDelays(b.log, env.target, b.pending, f.row);
    } else if buffered {
      assert b.log + EventsOf(f) == b.log;
      assert Whole(env, b) + EventsOf(f) == Whole(env, b);
    } else {
      FateKeepsOrder(b.log, f);
      FlushNothing(b.log + EventsOf(f), env.target);
      FlushNothing(b.log, env.target);
    }
  }

  predicate Counts(p: Progress, f: Fate, q: Progress)
  {
    if Lost(f) then q.counted == p.counted && q.lost == p.lost + 1
    else q.counted == p.counted + 1 && q.lost == p.lost
  }

  /** The last turn of a run that was not refused. */
  lemma LastTurn(env: Env, buffered: bool, stream: seq<Row>) returns (p: Progress, f: Fate)
    requires ValidStream(env, stream) && stream != [] && (buffered ==> Bufferable(env))
    requires Run(env, buffered, stream).Some?
    ensures Run(env, buffered, stream[..|stream| - 1]) == Some(p)
    ensures f == RowFate(env, |stream| - 1, Visible(p.buffer.log), stream[|stream| - 1])
    ensures !f.Refused? && Possible(env, buffered, f)
    ensures var q := Run(env, buffered, stream).value;
            q.buffer == After(env, buffered, p.buffer, f) && Counts(p, f, q)
  {
    hide FateOf, After, Bufferable, Visible;
    var k := |stream| - 1;
    p := Run(env, buffered, stream[..k]).value;
    var seen := Visible(p.buffer.log);
    f := RowFate(env, k, seen, stream[k]);
    if buffered {
      BufferableFate(env, k, seen, Built(env.desc, env.attnums, stream[k], k, seen));
    }
  }

  /** Buffered or not, the loop's work is in order at every moment and its buffer within bounds. */
  lemma {:induction false} RunIsOrdered(env: Env, buffered: bool, stream: seq<Row>)
    requires ValidStream(env, stream) && (buffered ==> Bufferable(env))
    ensures Run(env, buffered, stream).Some? ==> Tidy(buffered, Run(env, buffered, stream).value.buffer)
  {
    hide RowFate, After, Ordered, Balanced, Bufferable;
    if stream == [] {
      OrderedEmpty();
    } else if Run(env, buffered, stream).Some? {
      RunIsOrdered(env, buffered, stream[..|stream| - 1]);
      var p, f := LastTurn(env, buffered, stream);
      AfterIsTidy(env, buffered, p.buffer, f);
    }
  }

  /** Rows in are rows stored, rows taken by INSTEAD OF triggers, and rows suppressed or declined. */
  lemma {:induction false} RowsAreConserved(env: Env, buffered: bool, stream: seq<Row>)
    requires ValidStream(env, stream) && (buffered ==> Bufferable(env)) && Run(env, buffered, stream).Some?
    ensures var p := Run(env, buffered, stream).value; var work := Whole(env, p.buffer);
            && p.counted + p.lost == |stream|
            && p.counted == |Select(work, IsKept)| + |Select(work, IsInstead)|
  {
    hide RowFate, After, EventsOf, Select, Whole, Tidy, Bufferable, Visible;
    if stream == [] {
      NothingSelected();
      FlushNothing([], env.target);
      EmptyWhole(env);
    } else {
      var front := stream[..|stream| - 1];
      RowsAreConserved(env, buffered, front);
      RunIsOrdered(env, buffered, front);
      var p, f := LastTurn(env, buffered, stream);
      AfterIsTidy(env, buffered, p.buffer, f);
      OneFateCounts(f);
      SelectAppend(Whole(env, p.buffer), EventsOf(f), IsKept);
      SelectAppend(Whole(env, p.buffer), EventsOf(f), IsInstead);
    }
  }

  lemma EmptyWhole(env: Env)
    ensures Whole(env, Buffer([], [], 0)) == []
  {
  }

  /** How many of the latest rows a row may have been checked without, and one more. */
  function Lag(buffered: bool): nat
  {
    if buffered then MAX_TUPLES else 1
  }

  // ---- Every stored row is sound ------------------------------------------------

  /**
    Each row in a table was found sound with the tables as they stood when it was
    checked: with every row before it, but for fewer than `lag` still waiting.
   */
  ghost predicate AllSound(env: Env, kept: Heap, lag: nat)
  {
    forall i | 0 <= i < |kept| && !kept[i].0.fdw ::
      exists n | 0 <= n <= i < n + lag :: Sound(env, kept[..n], kept[i].0, kept[i].1)
  }

  lemma AllSoundGrows(env: Env, kept: Heap, n: nat, lag: nat, rel: Rel, row: Row)
    requires AllSound(env, kept, lag) && n <= |kept| < n + lag
    requires rel.fdw || Sound(env, kept[..n], rel, row)
    ensures AllSound(env, kept + [(rel, row)], lag)
  {
    hide Sound;
    var more := kept + [(rel, row)];
    forall i | 0 <= i < |more| && !more[i].0.fdw
      ensures exists m | 0 <= m <= i < m + lag :: Sound(env, more[..m], more[i].0, more[i].1)
    {
      if i < |kept| {
        var m :| 0 <= m <= i < m + lag && Sound(env, kept[..m], kept[i].0, kept[i].1);
        assert more[..m] == kept[..m];
      } else {
        assert more[..n] == kept[..n];
      }
    }
  }

  lemma SelectKeptOfFate(f: Fate)
    ensures Select(EventsOf(f), IsKept) == if f.Stored? || f.Foreign? then [(f.rel, f.row)] else []
  {
    hide Select;
    NothingSelected();
    match f
    case Stored(rel, row) =>
      SelectOne([], HeapEvent(rel, row), IsKept);
      SelectAfter([HeapEvent(rel, row)], rel, row, IsKept);
      assert [] + [HeapEvent(rel, row)] == [HeapEvent(rel, row)];
    case Foreign(rel, row) =>
      SelectOne([], ForeignEvent(rel, row), IsKept);
      SelectOne([ForeignEvent(rel, row)], AfterEvent(rel, row), IsKept);
      assert [] + [ForeignEvent(rel, row)] == [ForeignEvent(rel, row)];
      assert EventsOf(f) == [ForeignEvent(rel, row)] + [AfterEvent(rel, row)];
    case Instead(rel, row) =>
      SelectOne([], InsteadEvent(rel, row), IsKept);
      assert [] + [InsteadEvent(rel, row)] == EventsOf(f);
    case _ =>
  }

  /** The tables hold all the rows so far but those waiting. */
  lemma SeenAllButWaiting(env: Env, b: Buffer)
    ensures Visible(Whole(env, b)) == Visible(b.log) + Tagged(env.target, b.pending)
  {
    hide Select, Flushed;
    SelectFlushed(b.log, env.target, b.pending, IsKept);
  }

  lemma {:induction false} RunIsSound(env: Env, buffered: bool, stream: seq<Row>)
    requires RoutingIsSound(env) && KeysAreNotGenerated(env)
    requires ValidStream(env, stream) && (buffered ==> Bufferable(env)) && Run(env, buffered, stream).Some?
    ensures AllSound(env, Visible(Whole(env, Run(env, buffered, stream).value.buffer)), Lag(buffered))
  {
    hide FateOf, After, EventsOf, Select, Whole, Bufferable, AllSound, Sound, RoutingIsSound, KeysAreNotGenerated, Ordered, Balanced;
    var lag := Lag(buffered);
    if stream == [] {
      NothingSelected();
      EmptyWhole(env);
      AllSoundEmpty(env, lag);
    } else {
      var k := |stream| - 1;
      RunIsSound(env, buffered, stream[..k]);
      RunIsOrdered(env, buffered, stream[..k]);
      var p, f := LastTurn(env, buffered, stream);
      AfterIsTidy(env, buffered, p.buffer, f);
      var kept, seen := Visible(Whole(env, p.buffer)), Visible(p.buffer.log);
      SeenAllButWaiting(env, p.buffer);
      assert kept[..|seen|] == seen;
      StoredRowsAreSound(env, k, seen, Built(env.desc, env.attnums, stream[k], k, seen));
      AgreeSees(Whole(env, Run(env, buffered, stream).value.buffer), Whole(env, p.buffer) + EventsOf(f));
      SelectAppend(Whole(env, p.buffer), EventsOf(f), IsKept);
      SelectKeptOfFate(f);
      if f.Stored? || f.Foreign? {
        AllSoundGrows(env, kept, |seen|, lag, f.rel, f.row);
      } else {
        assert kept + [] == kept;
      }
    }
  }

  lemma AllSoundEmpty(env: Env, lag: nat)
    ensures AllSound(env, [], lag)
  {
  }

  // ---- Where every row came from ----------------------------------------------

  predicate Increasing(from: seq<nat>, below: nat)
  {
    && (forall i | 0 <= i < |from| :: from[i] < below)
    && (forall i, j | 0 <= i < j < |from| :: from[i] < from[j])
  }

  /** With the rows of `kept` before it, but for fewer than `lag` still waiting. */
  ghost predicate LandsBehind(env: Env, k: nat, kept: Heap, s: Row, rel: Rel, row: Row, lag: nat)
  {
    exists n, way | 0 <= n <= |kept| < n + lag :: Lands(env, k, kept[..n], s, rel, row, way)
  }

  ghost predicate TakenBehind(env: Env, k: nat, kept: Heap, s: Row, rel: Rel, row: Row)
  {
    exists n, way | 0 <= n <= |kept| :: Taken(env, k, kept[..n], s, rel, row, way)
  }

  ghost predicate DroppedBehind(env: Env, k: nat, kept: Heap, s: Row)
  {
    exists n, rel, way | 0 <= n <= |kept| ::
      DoneNothing(env, k, kept[..n], s, rel, way) || StoredNothing(env, k, kept[..n], s, rel, way)
  }

  /** The i-th row in a table is what became of the from[i]-th of the stream, later rows of later ones. */
  ghost predicate Landed(env: Env, stream: seq<Row>, kept: Heap, from: seq<nat>, lag: nat)
  {
    && |from| == |kept| && Increasing(from, |stream|)
    && forall i | 0 <= i < |kept| ::
         LandsBehind(env, from[i], kept[..i], stream[from[i]], kept[i].0, kept[i].1, lag)
  }

  /** The same for the rows given to INSTEAD OF triggers. */
  ghost predicate TakenFrom(env: Env, stream: seq<Row>, kept: Heap, taken: Heap, via: seq<nat>)
  {
    && |via| == |taken| && Increasing(via, |stream|)
    && forall i | 0 <= i < |taken| ::
         TakenBehind(env, via[i], kept, stream[via[i]], taken[i].0, taken[i].1)
  }

  /** A row that is in neither was dropped by a BEFORE ROW trigger or a foreign data wrapper. */
  ghost predicate OthersDropped(env: Env, stream: seq<Row>, kept: Heap, from: seq<nat>, via: seq<nat>)
  {
    forall k | 0 <= k < |stream| && k !in from && k !in via :: DroppedBehind(env, k, kept, stream[k])
  }

  lemma IncreasingGrows(from: seq<nat>, below: nat)
    requires Increasing(from, below)
    ensures Increasing(from, below + 1) && Increasing(from + [below], below + 1) && below !in from
  {
  }

  lemma TakenStays(env: Env, k: nat, kept: Heap, add: Heap, s: Row, rel: Rel, row: Row)
    requires TakenBehind(env, k, kept, s, rel, row)
    ensures TakenBehind(env, k, kept + add, s, rel, row)
  {
    hide Taken;
    var n, way :| 0 <= n <= |kept| && Taken(env, k, kept[..n], s, rel, row, way);
    assert (kept + add)[..n] == kept[..n];
  }

  lemma DroppedStays(env: Env, k: nat, kept: Heap, add: Heap, s: Row)
    requires DroppedBehind(env, k, kept, s)
    ensures DroppedBehind(env, k, kept + add, s)
  {
    hide DoneNothing, StoredNothing;
    var n, rel, way :| 0 <= n <= |kept| &&
      (DoneNothing(env, k, kept[..n], s, rel, way) || StoredNothing(env, k, kept[..n], s, rel, way));
    assert (kept + add)[..n] == kept[..n];
  }

  lemma LandedGrows(env: Env, stream: seq<Row>, s: Row, kept: Heap, from: seq<nat>, lag: nat, more: Heap)
    requires Landed(env, stream, kept, from, lag)
    requires more == [] || (|more| == 1 && LandsBehind(env, |stream|, kept, s, more[0].0, more[0].1, lag))
    ensures Landed(env, stream + [s], kept + more, if more == [] then from else from + [|stream|], lag)
  {
    hide LandsBehind;
    IncreasingGrows(from, |stream|);
    var kept1, stream1 := kept + more, stream + [s];
    var from1 := if more == [] then from else from + [|stream|];
    forall i | 0 <= i < |kept1|
      ensures LandsBehind(env, from1[i], kept1[..i], stream1[from1[i]], kept1[i].0, kept1[i].1, lag)
    {
      assert kept1[..i] == kept[..i];
      if i < |kept| {
        assert stream1[from1[i]] == stream[from[i]];
      } else {
        assert kept[..i] == kept && stream1[from1[i]] == s;
      }
    }
  }

  lemma TakenGrows(env: Env, stream: seq<Row>, s: Row, kept: Heap, add: Heap, taken: Heap, via: seq<nat>, more: Heap)
    requires TakenFrom(env, stream, kept, taken, via)
    requires more == [] || (|more| == 1 && TakenBehind(env, |stream|, kept, s, more[0].0, more[0].1))
    ensures TakenFrom(env, stream + [s], kept + add, taken + more, if more == [] then via else via + [|stream|])
  {
    hide TakenBehind;
    IncreasingGrows(via, |stream|);
    var stream1, taken1 := stream + [s], taken + more;
    var via1 := if more == [] then via else via + [|stream|];
    forall i | 0 <= i < |taken1|
      ensures TakenBehind(env, via1[i], kept + add, stream1[via1[i]], taken1[i].0, taken1[i].1)
    {
      assert stream1[via1[i]] == if i < |taken| then stream[via[i]] else s;
      TakenStays(env, via1[i], kept, add, stream1[via1[i]], taken1[i].0, taken1[i].1);
    }
  }

  lemma DroppedGrows(env: Env, stream: seq<Row>, s: Row, kept: Heap, add: Heap, from: seq<nat>, via: seq<nat>,
                     from1: seq<nat>, via1: seq<nat>)
    requires OthersDropped(env, stream, kept, from, via)
    requires from <= from1 && via <= via1
    requires |stream| in from1 || |stream| in via1 || DroppedBehind(env, |stream|, kept, s)
    ensures OthersDropped(env, stream + [s], kept + add, from1, via1)
  {
    hide DroppedBehind;
    var stream1 := stream + [s];
    forall k | 0 <= k < |stream1| && k !in from1 && k !in via1
      ensures DroppedBehind(env, k, kept + add, stream1[k])
    {
      if k < |stream| {
        assert k !in from && k !in via;
      }
      DroppedStays(env, k, kept, add, stream1[k]);
    }
  }

  lemma SelectInsteadOfFate(f: Fate)
    ensures Select(EventsOf(f), IsInstead) == if f.Instead? then [(f.rel, f.row)] else []
  {
    hide Select;
    NothingSelected();
    match f
    case Stored(rel, row) =>
      SelectOne([], HeapEvent(rel, row), IsInstead);
      SelectAfter([HeapEvent(rel, row)], rel, row, IsInstead);
      assert [] + [HeapEvent(rel, row)] == [HeapEvent(rel, row)];
    case Foreign(rel, row) =>
      SelectOne([], ForeignEvent(rel, row), IsInstead);
      SelectOne([ForeignEvent(rel, row)], AfterEvent(rel, row), IsInstead);
      assert [] + [ForeignEvent(rel, row)] == [ForeignEvent(rel, row)];
      assert EventsOf(f) == [ForeignEvent(rel, row)] + [AfterEvent(rel, row)];
    case Instead(rel, row) =>
      SelectOne([], InsteadEvent(rel, row), IsInstead);
      assert [] + [InsteadEvent(rel, row)] == EventsOf(f);
    case _ =>
  }

  /** What one turn makes of its row, seen from all the rows there will be before it. */
  lemma FateBehind(env: Env, k: nat, kept: Heap, n: nat, s: Row, lag: nat)
    requires |s| == |env.attnums| && n <= |kept| < n + lag
    ensures var f := RowFate(env, k, kept[..n], s);
            && (f.Stored? || f.Foreign? ==> LandsBehind(env, k, kept, s, f.rel, f.row, lag))
            && (f.Instead? ==> TakenBehind(env, k, kept, s, f.rel, f.row))
            && (Lost(f) ==> DroppedBehind(env, k, kept, s))
  {
    hide RowFate, Lands, Taken, DoneNothing, StoredNothing, TurnedAway;
    var rel, way := FateSpelledOut(env, k, kept[..n], s);
  }

  /** Every row of the stream is accounted for, once, by what its own functions made of it. */
  ghost predicate Accounted(env: Env, stream: seq<Row>, kept: Heap, taken: Heap, from: seq<nat>, via: seq<nat>, lag: nat)
  {
    && Landed(env, stream, kept, from, lag)
    && TakenFrom(env, stream, kept, taken, via)
    && OthersDropped(env, stream, kept, from, via)
    && forall k | k in from :: k !in via
  }

  lemma AccountedGrows(env: Env, stream: seq<Row>, s: Row, kept: Heap, taken: Heap, from: seq<nat>, via: seq<nat>, lag: nat,
                       n: nat, f: Fate) returns (from1: seq<nat>, via1: seq<nat>)
    requires Accounted(env, stream, kept, taken, from, via, lag)
    requires |s| == |env.attnums| && n <= |kept| < n + lag
    requires f == RowFate(env, |stream|, kept[..n], s) && !f.Refused?
    ensures Accounted(env, stream + [s],
                      kept + if f.Stored? || f.Foreign? then [(f.rel, f.row)] else [],
                      taken + if f.Instead? then [(f.rel, f.row)] else [], from1, via1, lag)
  {
    hide RowFate, LandsBehind, TakenBehind, DroppedBehind, Increasing;
    var more: Heap := if f.Stored? || f.Foreign? then [(f.rel, f.row)] else [];
    var given: Heap := if f.Instead? then [(f.rel, f.row)] else [];
    FateBehind(env, |stream|, kept, n, s, lag);
    from1 := if more == [] then from else from + [|stream|];
    via1 := if given == [] then via else via + [|stream|];
    IncreasingGrows(from, |stream|);
    IncreasingGrows(via, |stream|);
    LandedGrows(env, stream, s, kept, from, lag, more);
    TakenGrows(env, stream, s, kept, more, taken, via, given);
    DroppedGrows(env, stream, s, kept, more, from, via, from1, via1);
  }

  lemma {:induction false} RunAccounts(env: Env, buffered: bool, stream: seq<Row>) returns (from: seq<nat>, via: seq<nat>)
    requires ValidStream(env, stream) && (buffered ==> Bufferable(env)) && Run(env, buffered, stream).Some?
    ensures var work := Whole(env, Run(env, buffered, stream).value.buffer);
            Accounted(env, stream, Visible(work), Select(work, IsInstead), from, via, Lag(buffered))
  {
    hide RowFate, After, EventsOf, Select, Whole, Bufferable, Accounted, Ordered, Balanced;
    var lag := Lag(buffered);
    if stream == [] {
      NothingSelected();
      EmptyWhole(env);
      from, via := [], [];
      NoneAccounted(env, lag);
    } else {
      var k := |stream| - 1;
      var front := stream[..k];
      var from0, via0 := RunAccounts(env, buffered, front);
      RunIsOrdered(env, buffered, front);
      var p, f := LastTurn(env, buffered, stream);
      AfterIsTidy(env, buffered, p.buffer, f);
      var kept, seen := Visible(Whole(env, p.buffer)), Visible(p.buffer.log);
      SeenAllButWaiting(env, p.buffer);
      assert kept[..|seen|] == seen && front + [stream[k]] == stream;
      from, via := AccountedGrows(env, front, stream[k], kept, Select(Whole(env, p.buffer), IsInstead), from0, via0, lag, |seen|, f);
      WorkGrows(Whole(env, Run(env, buffered, stream).value.buffer), Whole(env, p.buffer), f);
    }
  }

  lemma NoneAccounted(env: Env, lag: nat)
    ensures Accounted(env, [], [], [], [], [], lag)
  {
  }

  /** What one fate adds to the tables and to what INSTEAD OF triggers were given. */
  lemma WorkGrows(now: seq<Event>, was: seq<Event>, f: Fate)
    requires Agree(now, was + EventsOf(f))
    ensures Visible(now) == Visible(was) + if f.Stored? || f.Foreign? then [(f.rel, f.row)] else []
    ensures Select(now, IsInstead) == Select(was, IsInstead) + if f.Instead? then [(f.rel, f.row)] else []
  {
    hide Select, EventsOf;
    SelectAppend(was, EventsOf(f), IsKept);
    SelectAppend(was, EventsOf(f), IsInstead);
    SelectKeptOfFate(f);
    SelectInsteadOfFate(f);
  }

  /** A run stops exactly at a row that is turned away. */
  lemma {:induction false} RunStopsAt(env: Env, buffered: bool, stream: seq<Row>) returns (k: nat)
    requires ValidStream(env, stream) && Run(env, buffered, stream).None?
    ensures k < |stream| && ValidStream(env, stream[..k]) && Run(env, buffered, stream[..k]).Some?
    ensures exists rel, way ::
              TurnedAway(env, k, Visible(Run(env, buffered, stream[..k]).value.buffer.log), stream[k], rel, way)
  {
    hide RowFate, After, Visible, TurnedAway;
    k := |stream| - 1;
    if Run(env, buffered, stream[..k]).None? {
      var front := stream[..k];
      k := RunStopsAt(env, buffered, front);
      assert front[..k] == stream[..k];
    } else {
      var rel, way := FateSpelledOut(env, k, Visible(Run(env, buffered, stream[..k]).value.buffer.log), stream[k]);
    }
  }

  // ---- When the buffer makes no difference ---------------------------------------

  /** The same outcome, and on success the same work of every kind in the same order. */
  predicate Match(env: Env, a: Option<Progress>, b: Option<Progress>)
  {
    && (a.None? <==> b.None?)
    && (a.Some? ==>
          && Agree(Whole(env, a.value.buffer), Whole(env, b.value.buffer))
          && a.value.counted == b.value.counted && a.value.lost == b.value.lost)
  }

  /** Whatever the stream, the loop does what it would do without its buffer. */
  ghost predicate SameRuns(env: Env)
  {
    forall stream | ValidStream(env, stream) ::
      Match(env, Run(env, Bufferable(env), stream), Run(env, false, stream))
  }

  /** No row's fate turns on whether the rows then waiting are in the table already. */
  ghost predicate BlindToWaiting(env: Env)
  {
    forall stream, s | ValidStream(env, stream) && |s| == |env.attnums| && Run(env, Bufferable(env), stream).Some? ::
      var b := Run(env, Bufferable(env), stream).value.buffer;
      RowFate(env, |stream|, Visible(b.log), s) == RowFate(env, |stream|, Visible(Whole(env, b)), s)
  }

  lemma AgreeSees(a: seq<Event>, b: seq<Event>)
    requires Agree(a, b)
    ensures Visible(a) == Visible(b)
  {
  }

  lemma AgreeSelf(a: seq<Event>)
    ensures Agree(a, a)
  {
  }

  /** One turn of the two loops from matching states: they stay so exactly when the fates are equal. */
  lemma TurnsMatch(env: Env, k: nat, s: Row, p: Progress, q: Progress)
    requires |s| == |env.attnums| && Match(env, Some(p), Some(q))
    requires Tidy(Bufferable(env), p.buffer) && Tidy(false, q.buffer)
    ensures Match(env, Next(env, Bufferable(env), k, s, p), Next(env, false, k, s, q))
        <==> RowFate(env, k, Visible(p.buffer.log), s) == RowFate(env, k, Visible(Whole(env, p.buffer)), s)
  {
    hide FateOf, After, EventsOf, Select, Whole, Bufferable, Ordered, Balanced, Visible, Agree;
    var buffered := Bufferable(env);
    var seen, all := Visible(p.buffer.log), Visible(Whole(env, p.buffer));
    AgreeSees(Whole(env, p.buffer), Whole(env, q.buffer));
    WholeOfEmpty(env, q.buffer);
    var f, g := RowFate(env, k, seen, s), RowFate(env, k, all, s);
    if buffered {
      BufferableFate(env, k, seen, Built(env.desc, env.attnums, s, k, seen));
      BufferableFate(env, k, all, Built(env.desc, env.attnums, s, k, all));
    } else {
      WholeOfEmpty(env, p.buffer);
    }
    AfterIsTidy(env, buffered, p.buffer, f);
    AfterIsTidy(env, false, q.buffer, g);
    var p1, q1 := After(env, buffered, p.buffer, f), After(env, false, q.buffer, g);
    if f == g {
      AgreeAppend(Whole(env, p1), Whole(env, p.buffer), Whole(env, q.buffer), EventsOf(f));
    } else if f.Stored? && g.Stored? {
      DifferentRowsShow(Whole(env, p1), Whole(env, q1), Whole(env, p.buffer), Whole(env, q.buffer), f, g);
    }
  }

  lemma WholeOfEmpty(env: Env, b: Buffer)
    ensures b.pending == [] ==> Whole(env, b) == b.log
  {
  }

  lemma DifferentRowsShow(a: seq<Event>, b: seq<Event>, was1: seq<Event>, was2: seq<Event>, f: Fate, g: Fate)
    requires f.Stored? && g.Stored? && f != g && Agree(was1, was2)
    requires Agree(a, was1 + EventsOf(f)) && Agree(b, was2 + EventsOf(g))
    ensures !Agree(a, b)
  {
    hide Select, EventsOf;
    SelectAppend(was1, EventsOf(f), IsKept);
    SelectAppend(was2, EventsOf(g), IsKept);
    SelectKeptOfFate(f);
    SelectKeptOfFate(g);
    var kept := Select(was1, IsKept);
    assert (kept + [(f.rel, f.row)])[|kept|] == (f.rel, f.row) && (kept + [(g.rel, g.row)])[|kept|] == (g.rel, g.row);
  }

  lemma {:induction false} BlindRunsMatch(env: Env, stream: seq<Row>)
    requires BlindToWaiting(env) && ValidStream(env, stream)
    ensures Match(env, Run(env, Bufferable(env), stream), Run(env, false, stream))
  {
    hide RowFate, Next, Whole, Bufferable, Tidy, Visible, Agree;
    if stream == [] {
      AgreeSelf(Whole(env, Buffer([], [], 0)));
    } else {
      var k := |stream| - 1;
      var front, s := stream[..k], stream[k];
      BlindRunsMatch(env, front);
      if Run(env, Bufferable(env), front).Some? {
        RunIsOrdered(env, Bufferable(env), front);
        RunIsOrdered(env, false, front);
        TurnsMatch(env, k, s, Run(env, Bufferable(env), front).value, Run(env, false, front).value);
      }
    }
  }

  /**
    The buffer makes no difference on any stream exactly when no row's fate turns on
    the rows waiting in it.
   */
  lemma BufferMakesNoDifference(env: Env)
    ensures SameRuns(env) <==> BlindToWaiting(env)
  {
    hide RowFate, Next, Whole, Bufferable, Tidy, Visible, Match;
    if BlindToWaiting(env) {
      forall stream | ValidStream(env, stream)
        ensures Match(env, Run(env, Bufferable(env), stream), Run(env, false, stream))
      {
        BlindRunsMatch(env, stream);
      }
    }
    if SameRuns(env) {
      forall stream, s | ValidStream(env, stream) && |s| == |env.attnums| && Run(env, Bufferable(env), stream).Some?
        ensures var b := Run(env, Bufferable(env), stream).value.buffer;
                RowFate(env, |stream|, Visible(b.log), s) == RowFate(env, |stream|, Visible(Whole(env, b)), s)
      {
        SameRunsAreBlind(env, stream, s);
      }
    }
  }

  lemma SameRunsAreBlind(env: Env, stream: seq<Row>, s: Row)
    requires SameRuns(env) && ValidStream(env, stream) && |s| == |env.attnums| && Run(env, Bufferable(env), stream).Some?
    ensures var b := Run(env, Bufferable(env), stream).value.buffer;
            RowFate(env, |stream|, Visible(b.log), s) == RowFate(env, |stream|, Visible(Whole(env, b)), s)
  {
    hide RowFate, Next, Whole, Bufferable, Tidy, Visible, Agree;
    var more := stream + [s];
    assert more[..|stream|] == stream;
    assert ValidStream(env, more);
    assert Match(env, Run(env, Bufferable(env), stream), Run(env, false, stream));
    assert Match(env, Run(env, Bufferable(env), more), Run(env, false, more));
    RunIsOrdered(env, Bufferable(env), stream);
    RunIsOrdered(env, false, stream);
    TurnsMatch(env, |stream|, s, Run(env, Bufferable(env), stream).value, Run(env, false, stream).value);
  }

  /** What the copy evaluates between routing and storage does not look at the tables. */
  ghost predicate IgnoresTables(env: Env)
  {
    && (forall a: nat, k: nat, h, h' | Defaulted(env.desc, env.attnums, a) ::
          env.desc[a].default.value(k, h) == env.desc[a].default.value(k, h'))
    && (env.target.constr && env.target.generatedStored ==>
          forall k: nat, h, h', row :: env.compute(k, h, env.target, row) == env.compute(k, h', env.target, row))
    && (env.target.constr ==>
          forall h, h', row :: env.satisfies(h, env.target, row) == env.satisfies(h', env.target, row))
  }

  /**
    A condition to check before the copy: nothing need be asked of a target that is not
    buffered, whatever its triggers look at.
   */
  lemma IgnoringTablesIsEnough(env: Env)
    requires Bufferable(env) ==> IgnoresTables(env)
    ensures BlindToWaiting(env)
  {
    forall stream, s | ValidStream(env, stream) && |s| == |env.attnums| && Run(env, Bufferable(env), stream).Some?
      ensures var b := Run(env, Bufferable(env), stream).value.buffer;
              RowFate(env, |stream|, Visible(b.log), s) == RowFate(env, |stream|, Visible(Whole(env, b)), s)
    {
      var b := Run(env, Bufferable(env), stream).value.buffer;
      if Bufferable(env) {
        FatesIgnoreTables(env, |stream|, Visible(b.log), Visible(Whole(env, b)), s);
      } else {
        RunIsOrdered(env, false, stream);
        WholeOfEmpty(env, b);
      }
    }
  }

  lemma FatesIgnoreTables(env: Env, k: nat, seen: Heap, all: Heap, s: Row)
    requires Bufferable(env) && IgnoresTables(env) && |s| == |env.attnums|
    ensures RowFate(env, k, seen, s) == RowFate(env, k, all, s)
  {
    forall a: nat | a < |env.desc|
      ensures AttrValue(env.desc, env.attnums, s, k, seen, a) == AttrValue(env.desc, env.attnums, s, k, all, a)
    {
    }
    assert Built(env.desc, env.attnums, s, k, seen) == Built(env.desc, env.attnums, s, k, all);
  }

  // ---- A default that reads its own table ------------------------------------

  const Ledger := Rel(0, false, false, false, false, false, false, 0)

  /** A default that numbers rows by how many the table holds, as max(id) + 1 would. */
  const Numbered := Attr(false, false, Some((k: nat, seen: Heap) => Some(|seen|)))

  /** A table of a copied column and a numbered one, with nothing that keeps it from being buffered. */
  const Numbering := Env(
    Ledger, [Attr(false, false, None), Numbered], [1], false,
    (k: nat, seen: Heap, row: Row) => None, (rel: Rel, row: Row) => row,
    (k: nat, seen: Heap, rel: Rel, row: Row) => None, (k: nat, seen: Heap, rel: Rel, row: Row) => row,
    (seen: Heap, rel: Rel, row: Row) => true, (rel: Rel, row: Row) => true,
    (k: nat, seen: Heap, rel: Rel, row: Row) => None, (row: Row) => 1)

  lemma NumberingFate(k: nat, seen: Heap, s: Row)
    requires |s| == 1
    ensures RowFate(Numbering, k, seen, s) == Stored(Ledger, [s[0], Some(|seen|)])
  {
    OneSource(Numbering.desc, Numbering.attnums, s, k, seen, 0);
    OneSource(Numbering.desc, Numbering.attnums, s, k, seen, 1);
    assert Built(Numbering.desc, Numbering.attnums, s, k, seen) == [s[0], Some(|seen|)];
  }

  lemma NumberingTurn(buffered: bool, stream: seq<Row>, s: Row, b: Buffer)
    requires ValidStream(Numbering, stream) && |s| == 1
    requires Run(Numbering, buffered, stream).Some? && Run(Numbering, buffered, stream).value.buffer == b
    ensures ValidStream(Numbering, stream + [s]) && Run(Numbering, buffered, stream + [s]).Some?
    ensures Run(Numbering, buffered, stream + [s]).value.buffer ==
            After(Numbering, buffered, b, Stored(Ledger, [s[0], Some(|Visible(b.log)|)]))
  {
    hide RowFate, After, Visible;
    assert (stream + [s])[..|stream|] == stream;
    NumberingFate(|stream|, Visible(b.log), s);
  }

  /** A buffer of a few rows only gathers them. */
  lemma Gathers(b: Buffer, row: Row)
    requires |b.pending| < 10 && b.bytes < 10
    ensures After(Numbering, true, b, Stored(Ledger, row)) == Buffer(b.log, b.pending + [row], b.bytes + 1)
  {
  }

  lemma StoresAtOnce(b: Buffer, row: Row)
    ensures var a := After(Numbering, false, b, Stored(Ledger, row));
            Visible(a.log) == Visible(b.log) + [(Ledger, row)] && a.pending == b.pending
  {
    hide Select;
    SelectAppend(b.log, EventsOf(Stored(Ledger, row)), IsKept);
    SelectKeptOfFate(Stored(Ledger, row));
  }

  /**
    Two rows are enough: stored one by one they are numbered 0 and 1; buffered, both
    get 0, for the first is not in the table when the second is built.
   */
  lemma NumberedApart(x: Option<Datum>, y: Option<Datum>)
    ensures var stream := [[x], [y]];
            && ValidStream(Numbering, stream) && Run(Numbering, false, stream).Some?
            && Visible(Whole(Numbering, Run(Numbering, false, stream).value.buffer)) ==
               [(Ledger, [x, Some(0)]), (Ledger, [y, Some(1)])]
  {
    hide After, EventsOf, Select, RowFate;
    NothingSelected();
    var b := Buffer([], [], 0);
    NumberingTurn(false, [], [x], b);
    StoresAtOnce(b, [x, Some(0)]);
    var b1 := After(Numbering, false, b, Stored(Ledger, [x, Some(0)]));
    assert [] + [[x]] == [[x]] && [[x]] + [[y]] == [[x], [y]];
    NumberingTurn(false, [[x]], [y], b1);
    StoresAtOnce(b1, [y, Some(1)]);
    WholeOfEmpty(Numbering, After(Numbering, false, b1, Stored(Ledger, [y, Some(1)])));
  }

  /** The same two rows buffered. */
  lemma NumberedAlike(x: Option<Datum>, y: Option<Datum>)
    ensures var stream := [[x], [y]];
            && ValidStream(Numbering, stream) && Run(Numbering, true, stream).Some?
            && Visible(Whole(Numbering, Run(Numbering, true, stream).value.buffer)) ==
               [(Ledger, [x, Some(0)]), (Ledger, [y, Some(0)])]
  {
    hide After, EventsOf, Select, RowFate, Whole;
    NothingSelected();
    var b := Buffer([], [], 0);
    NumberingTurn(true, [], [x], b);
    Gathers(b, [x, Some(0)]);
    var b1 := Buffer([], [[x, Some(0)]], 1);
    assert [] + [[x]] == [[x]] && [[x]] + [[y]] == [[x], [y]] && [] + [[x, Some(0)]] == [[x, Some(0)]];
    NumberingTurn(true, [[x]], [y], b1);
    Gathers(b1, [y, Some(0)]);
    var b2 := Buffer([], [[x, Some(0)], [y, Some(0)]], 2);
    assert [[x, Some(0)]] + [[y, Some(0)]] == b2.pending;
    SeenAllButWaiting(Numbering, b2);
  }

  /** So such a table is buffered, and the buffer shows. */
  lemma NumberingDiffers()
    ensures Bufferable(Numbering)
    ensures !SameRuns(Numbering) && !BlindToWaiting(Numbering)
  {
    hide Run, Whole, Select;
    var x: Option<Datum>, y: Option<Datum> := None, None;
    NumberedApart(x, y);
    NumberedAlike(x, y);
    var stream := [[x], [y]];
    var a, c := Run(Numbering, true, stream), Run(Numbering, false, stream);
    assert Visible(Whole(Numbering, a.value.buffer))[1] != Visible(Whole(Numbering, c.value.buffer))[1] by {
      assert [y, Some(0)][1] != [y, Some(1)][1];
    }
    assert !Match(Numbering, a, c);
    BufferMakesNoDifference(Numbering);
  }
}
