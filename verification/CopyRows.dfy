/**
  chDB to Postgres, one row at a time: where each attribute of a row comes from, what
  becomes of the row, and what that leaves in the table. This is the meaning that
  the buffered loop of Insert is held to.
 */
module CopyRows {
  import opened Bytes
  import opened Rows

  // ---- Where an attribute comes from --------------------------------------

  /** A relation that rows go to, with the flags its triggers and constraints set. */
  datatype Rel = Rel(
    id: nat, fdw: bool, beforeRow: bool, insteadRow: bool,
    constr: bool, generatedStored: bool, isPartition: bool, indices: nat)

  /** What the copy has put into tables so far, as an expression that queries them may see it. */
  type Heap = seq<(Rel, Row)>

  /** An attribute; its default is evaluated for each row, so that a volatile one varies. */
  datatype Attr = Attr(dropped: bool, generated: bool, default: Option<(nat, Heap) -> Option<Datum>>)

  /** attnums names attributes of the relation, each at most once. */
  predicate ValidAttnums(attnums: seq<nat>, natts: nat)
  {
    InRange(attnums, natts) && forall i, j | 0 <= i < j < |attnums| :: attnums[i] != attnums[j]
  }

  /** Filled from its default: has one, is not copied, dropped or generated. */
  predicate Defaulted(desc: seq<Attr>, attnums: seq<nat>, a: nat)
  {
    a < |desc| && !desc[a].dropped && !desc[a].generated && desc[a].default.Some? && (a + 1) !in attnums
  }

  /** Attribute `a` of the k-th row built: its stream column, else its default, else NULL. */
  function AttrValue(desc: seq<Attr>, attnums: seq<nat>, stream: Row, k: nat, seen: Heap, a: nat): Option<Datum>
    requires |stream| == |attnums| && a < |desc|
  {
    FindOne(attnums, a + 1);
    match Find(attnums, [a + 1])
    case Some(i) => stream[i]
    case None => if Defaulted(desc, attnums, a) then desc[a].default.value(k, seen) else None
  }

  function Built(desc: seq<Attr>, attnums: seq<nat>, stream: Row, k: nat, seen: Heap): (r: Row)
    requires |stream| == |attnums|
    ensures |r| == |desc|
  {
    seq(|desc|, a requires 0 <= a < |desc| => AttrValue(desc, attnums, stream, k, seen, a))
  }

  /** Every attribute has exactly one source: its stream column, its default, or none. */
  lemma OneSource(desc: seq<Attr>, attnums: seq<nat>, stream: Row, k: nat, seen: Heap, a: nat)
    requires ValidAttnums(attnums, |desc|) && |stream| == |attnums| && a < |desc|
    ensures forall i | 0 <= i < |attnums| && attnums[i] == a + 1 :: Built(desc, attnums, stream, k, seen)[a] == stream[i]
    ensures (a + 1) !in attnums ==>
              Built(desc, attnums, stream, k, seen)[a] ==
              if desc[a].default.Some? && !desc[a].dropped && !desc[a].generated
              then desc[a].default.value(k, seen) else None
  {
    FindOne(attnums, a + 1);
  }

  // ---- What becomes of a row ----------------------------------------------

  /**
    The copy's target and columns, and the functions the executor calls, arbitrary but
    for their arguments. Those that may query tables are given what the copy has put
    there; a partition's constraint and the conversion to its row type may not.
   */
  datatype Env = Env(
    target: Rel,
    desc: seq<Attr>,
    attnums: seq<nat>,
    partitioned: bool,
    route: (nat, Heap, Row) -> Option<Rel>,          // None: no partition takes the row
    convert: (Rel, Row) -> Row,                      // root row to partition row
    before: (nat, Heap, Rel, Row) -> Option<Row>,    // None: BEFORE ROW says "do nothing"
    compute: (nat, Heap, Rel, Row) -> Row,           // stored generated columns
    satisfies: (Heap, Rel, Row) -> bool,
    inPartition: (Rel, Row) -> bool,
    foreign: (nat, Heap, Rel, Row) -> Option<Row>,   // None: the FDW stored nothing
    width: Row -> nat)

  datatype Fate =
    | Refused                          // raises
    | Suppressed                       // by a BEFORE ROW trigger
    | Declined                         // by a foreign data wrapper
    | Instead(rel: Rel, row: Row)      // taken by INSTEAD OF triggers
    | Foreign(rel: Rel, row: Row)
    | Stored(rel: Rel, row: Row)

  function Routed(env: Env, k: nat, seen: Heap, row: Row): Option<(Rel, Row)>
  {
    if !env.partitioned then Some((env.target, row))
    else
      match env.route(k, seen, row)
      case None => None
      case Some(rel) => Some((rel, env.convert(rel, row)))
  }

  /** The checks and the insertion of a row that triggers have let through. */
  function Insertion(env: Env, k: nat, seen: Heap, rel: Rel, row: Row): Fate
  {
    var final := if rel.constr && rel.generatedStored then env.compute(k, seen, rel, row) else row;
    if !rel.fdw && rel.constr && !env.satisfies(seen, rel, final) then Refused
    else if rel.isPartition && (!env.partitioned || rel.beforeRow) && !env.inPartition(rel, final) then Refused
    else if rel.fdw then
      (match env.foreign(k, seen, rel, final)
       case None => Declined
       case Some(stored) => Foreign(rel, stored))
    else Stored(rel, final)
  }

  /** What becomes of a row in the relation it was routed to. */
  function Handled(env: Env, k: nat, seen: Heap, rel: Rel, row: Row): Fate
  {
    match (if rel.beforeRow then env.before(k, seen, rel, row) else Some(row))
    case None => Suppressed
    case Some(row1) =>
      if rel.insteadRow then Instead(rel, row1) else Insertion(env, k, seen, rel, row1)
  }

  /** The k-th row's way through CopyFrom's steps, each flag read off the relation it went to. */
  function FateOf(env: Env, k: nat, seen: Heap, row: Row): Fate
  {
    match Routed(env, k, seen, row)
    case None => Refused
    case Some((rel, row1)) => Handled(env, k, seen, rel, row1)
  }

  /** From the stream's k-th row on: defaults too see what is in the tables by then. */
  function RowFate(env: Env, k: nat, seen: Heap, stream: Row): Fate
    requires |stream| == |env.attnums|
  {
    FateOf(env, k, seen, Built(env.desc, env.attnums, stream, k, seen))
  }

  // ---- The same, spelled out ------------------------------------------------

  /** A row on its way: as its relation has it, as triggers leave it, and with its generated columns. */
  datatype Way = Way(routed: Row, triggered: Row, computed: Row)

  /** The k-th row goes to `rel`: converted for a partition, and replaced by a BEFORE ROW trigger's. */
  predicate Goes(env: Env, k: nat, seen: Heap, stream: Row, rel: Rel, way: Way)
  {
    && |stream| == |env.attnums|
    && var built := Built(env.desc, env.attnums, stream, k, seen);
       && (if env.partitioned then env.route(k, seen, built) == Some(rel) && way.routed == env.convert(rel, built)
           else rel == env.target && way.routed == built)
       && (if rel.beforeRow then env.before(k, seen, rel, way.routed) == Some(way.triggered)
           else way.triggered == way.routed)
       && way.computed == if rel.constr && rel.generatedStored then env.compute(k, seen, rel, way.triggered)
                          else way.triggered
  }

  /** Nothing keeps the row from being inserted. */
  predicate Admitted(env: Env, seen: Heap, rel: Rel, row: Row)
  {
    && (!rel.fdw && rel.constr ==> env.satisfies(seen, rel, row))
    && (rel.isPartition && (!env.partitioned || rel.beforeRow) ==> env.inPartition(rel, row))
  }

  /** What is left in `rel`: the computed row, or a foreign data wrapper's answer to it. */
  predicate Lands(env: Env, k: nat, seen: Heap, stream: Row, rel: Rel, row: Row, way: Way)
  {
    && Goes(env, k, seen, stream, rel, way) && !rel.insteadRow
    && Admitted(env, seen, rel, way.computed)
    && if rel.fdw then env.foreign(k, seen, rel, way.computed) == Some(row) else row == way.computed
  }

  /** What INSTEAD OF triggers are given: the row that BEFORE triggers left. */
  predicate Taken(env: Env, k: nat, seen: Heap, stream: Row, rel: Rel, row: Row, way: Way)
  {
    Goes(env, k, seen, stream, rel, way) && rel.insteadRow && row == way.triggered
  }

  /** A BEFORE ROW trigger of the row's relation said "do nothing". */
  predicate DoneNothing(env: Env, k: nat, seen: Heap, stream: Row, rel: Rel, way: Way)
  {
    && |stream| == |env.attnums|
    && var built := Built(env.desc, env.attnums, stream, k, seen);
       && (if env.partitioned then env.route(k, seen, built) == Some(rel) && way.routed == env.convert(rel, built)
           else rel == env.target && way.routed == built)
       && rel.beforeRow && env.before(k, seen, rel, way.routed) == None
  }

  /** A foreign data wrapper stored nothing. */
  predicate StoredNothing(env: Env, k: nat, seen: Heap, stream: Row, rel: Rel, way: Way)
  {
    && Goes(env, k, seen, stream, rel, way) && !rel.insteadRow && rel.fdw
    && Admitted(env, seen, rel, way.computed) && env.foreign(k, seen, rel, way.computed) == None
  }

  /** No partition takes the row, or it fails a check. */
  predicate TurnedAway(env: Env, k: nat, seen: Heap, stream: Row, rel: Rel, way: Way)
  {
    && |stream| == |env.attnums|
    && if env.partitioned && env.route(k, seen, Built(env.desc, env.attnums, stream, k, seen)) == None then true
       else Goes(env, k, seen, stream, rel, way) && !rel.insteadRow && !Admitted(env, seen, rel, way.computed)
  }

  /** A row ends as the functions called on it say... */
  lemma FateIsForced(env: Env, k: nat, seen: Heap, stream: Row, rel: Rel, row: Row, way: Way)
    requires |stream| == |env.attnums|
    ensures var f := RowFate(env, k, seen, stream);
            && (Lands(env, k, seen, stream, rel, row, way) ==> f == if rel.fdw then Foreign(rel, row) else Stored(rel, row))
            && (Taken(env, k, seen, stream, rel, row, way) ==> f == Instead(rel, row))
            && (DoneNothing(env, k, seen, stream, rel, way) ==> f == Suppressed)
            && (StoredNothing(env, k, seen, stream, rel, way) ==> f == Declined)
            && (TurnedAway(env, k, seen, stream, rel, way) ==> f == Refused)
  {
    hide Built;
  }

  /** ...and in no other way. */
  lemma FateSpelledOut(env: Env, k: nat, seen: Heap, stream: Row) returns (rel: Rel, way: Way)
    requires |stream| == |env.attnums|
    ensures match RowFate(env, k, seen, stream)
            case Stored(r, row) => r == rel && !rel.fdw && Lands(env, k, seen, stream, rel, row, way)
            case Foreign(r, row) => r == rel && rel.fdw && Lands(env, k, seen, stream, rel, row, way)
            case Instead(r, row) => r == rel && Taken(env, k, seen, stream, rel, row, way)
            case Suppressed => DoneNothing(env, k, seen, stream, rel, way)
            case Declined => StoredNothing(env, k, seen, stream, rel, way)
            case Refused => TurnedAway(env, k, seen, stream, rel, way)
  {
    var built := Built(env.desc, env.attnums, stream, k, seen);
    hide Built;
    var to := if env.partitioned then env.route(k, seen, built) else Some(env.target);
    rel := if to.Some? then to.value else env.target;
    var routed := if env.partitioned then env.convert(rel, built) else built;
    var before := if rel.beforeRow then env.before(k, seen, rel, routed) else Some(routed);
    var triggered := if before.Some? then before.value else routed;
    way := Way(routed, triggered, if rel.constr && rel.generatedStored then env.compute(k, seen, rel, triggered) else triggered);
  }

  /** ExecFindPartition only returns a partition that takes the row. */
  ghost predicate RoutingIsSound(env: Env)
  {
    forall k: nat, seen: Heap, row: Row | env.route(k, seen, row).Some? ::
      env.inPartition(env.route(k, seen, row).value, env.convert(env.route(k, seen, row).value, row))
  }

  /** Generated columns are not partition keys. */
  ghost predicate KeysAreNotGenerated(env: Env)
  {
    forall k: nat, seen: Heap, rel: Rel, row: Row ::
      env.inPartition(rel, env.compute(k, seen, rel, row)) == env.inPartition(rel, row)
  }

  /** The row is fit for its relation, as things stood when it was checked. */
  predicate Sound(env: Env, seen: Heap, rel: Rel, row: Row)
  {
    && (rel.constr ==> env.satisfies(seen, rel, row))
    && (rel.isPartition ==> env.inPartition(rel, row))
  }

  /**
    A row that reaches storage satisfies, in its final form, its relation's
    constraints and its partition's, although a routed row without BEFORE triggers
    is never checked against the latter.
   */
  lemma StoredRowsAreSound(env: Env, k: nat, seen: Heap, row: Row)
    requires RoutingIsSound(env) && KeysAreNotGenerated(env)
    ensures var f := FateOf(env, k, seen, row);
            && (f.Stored? ==> Sound(env, seen, f.rel, f.row))
            && (f.Foreign? ==> f.rel.fdw)
  {
    if env.partitioned && env.route(k, seen, row).Some? {
      var rel := env.route(k, seen, row).value;
      var row1 := env.convert(rel, row);
      assert env.inPartition(rel, env.compute(k, seen, rel, row1)) == env.inPartition(rel, row1);
    }
  }

  // ---- What that leaves behind --------------------------------------------

  datatype Event =
    | HeapEvent(rel: Rel, row: Row)
    | IndexEvent(rel: Rel, row: Row)
    | AfterEvent(rel: Rel, row: Row)
    | ForeignEvent(rel: Rel, row: Row)
    | InsteadEvent(rel: Rel, row: Row)

  function AfterInsert(rel: Rel, row: Row): seq<Event>
  {
    (if rel.indices > 0 then [IndexEvent(rel, row)] else []) + [AfterEvent(rel, row)]
  }

  function EventsOf(f: Fate): seq<Event>
  {
    match f
    case Stored(rel, row) => [HeapEvent(rel, row)] + AfterInsert(rel, row)
    case Foreign(rel, row) => [ForeignEvent(rel, row), AfterEvent(rel, row)]
    case Instead(rel, row) => [InsteadEvent(rel, row)]
    case _ => []
  }

  /** The relation and row of the events wanted, in order. */
  function Select(log: seq<Event>, want: Event -> bool): seq<(Rel, Row)>
  {
    if log == [] then []
    else
      var e := log[|log| - 1];
      Select(log[..|log| - 1], want) + if want(e) then [(e.rel, e.row)] else []
  }

  /** What the tables hold after this work. */
  function Visible(log: seq<Event>): Heap
  {
    Select(log, IsKept)
  }

  predicate IsHeap(e: Event) { e.HeapEvent? }
  predicate IsIndexable(e: Event) { e.HeapEvent? && e.rel.indices > 0 }
  predicate IsIndex(e: Event) { e.IndexEvent? }
  predicate IsKept(e: Event) { e.HeapEvent? || e.ForeignEvent? }
  predicate IsAfter(e: Event) { e.AfterEvent? }
  predicate IsInstead(e: Event) { e.InsteadEvent? }

  lemma SelectOne(log: seq<Event>, e: Event, want: Event -> bool)
    ensures Select(log + [e], want) == Select(log, want) + if want(e) then [(e.rel, e.row)] else []
  {
    assert (log + [e])[..|log|] == log;
  }

  lemma {:induction false} SelectAppend(a: seq<Event>, b: seq<Event>, want: Event -> bool)
    ensures Select(a + b, want) == Select(a, want) + Select(b, want)
  {
    if b == [] {
      assert a + b == a;
    } else {
      var front := b[..|b| - 1];
      assert (a + b)[..|a + b| - 1] == a + front;
      SelectAppend(a, front, want);
    }
  }

  /** Index and trigger work so far is for the rows stored so far, in the order they were stored. */
  predicate InStep(log: seq<Event>)
  {
    && Select(log, IsIndex) <= Select(log, IsIndexable)
    && Select(log, IsAfter) <= Select(log, IsKept)
  }

  /** At every moment: so no row's work ever comes before the row itself. */
  ghost predicate Ordered(log: seq<Event>)
  {
    forall n | 0 <= n <= |log| :: InStep(log[..n])
  }

  /** Every row has had exactly one of each. */
  predicate Balanced(log: seq<Event>)
  {
    && Select(log, IsIndex) == Select(log, IsIndexable)
    && Select(log, IsAfter) == Select(log, IsKept)
  }

  lemma OrderedGrows(log: seq<Event>, e: Event)
    requires Ordered(log) && InStep(log + [e])
    ensures Ordered(log + [e])
  {
    hide InStep;
    var longer := log + [e];
    forall n | 0 <= n <= |longer| ensures InStep(longer[..n]) {
      if n <= |log| {
        assert longer[..n] == log[..n];
      } else {
        assert longer[..n] == longer;
      }
    }
  }

  lemma OrderedEmpty()
    ensures Ordered([]) && Balanced([])
  {
  }

  /** One more event, and what it does to the two lists each kind of work is compared with. */
  lemma SelectEvent(log: seq<Event>, e: Event)
    ensures Select(log + [e], IsIndexable) == Select(log, IsIndexable) + if IsIndexable(e) then [(e.rel, e.row)] else []
    ensures Select(log + [e], IsIndex) == Select(log, IsIndex) + if IsIndex(e) then [(e.rel, e.row)] else []
    ensures Select(log + [e], IsKept) == Select(log, IsKept) + if IsKept(e) then [(e.rel, e.row)] else []
    ensures Select(log + [e], IsAfter) == Select(log, IsAfter) + if IsAfter(e) then [(e.rel, e.row)] else []
    ensures Select(log + [e], IsHeap) == Select(log, IsHeap) + if IsHeap(e) then [(e.rel, e.row)] else []
    ensures Select(log + [e], IsInstead) == Select(log, IsInstead) + if IsInstead(e) then [(e.rel, e.row)] else []
  {
    SelectOne(log, e, IsIndexable);
    SelectOne(log, e, IsIndex);
    SelectOne(log, e, IsKept);
    SelectOne(log, e, IsAfter);
    SelectOne(log, e, IsHeap);
    SelectOne(log, e, IsInstead);
  }

  /** The events of one row keep a log in order. */
  lemma FateKeepsOrder(log: seq<Event>, f: Fate)
    requires Ordered(log) && Balanced(log)
    ensures Ordered(log + EventsOf(f)) && Balanced(log + EventsOf(f))
  {
    hide Ordered, Select;
    match f
    case Stored(rel, row) =>
      StoreKeepsOrder(log, HeapEvent(rel, row));
      assert log + EventsOf(f) == (log + [HeapEvent(rel, row)]) + AfterInsert(rel, row);
    case Foreign(rel, row) =>
      StoreKeepsOrder(log, ForeignEvent(rel, row));
      var l1 := log + [ForeignEvent(rel, row)];
      SelectEvent(log, ForeignEvent(rel, row));
      SelectEvent(l1, AfterEvent(rel, row));
      OrderedGrows(l1, AfterEvent(rel, row));
      assert log + EventsOf(f) == l1 + [AfterEvent(rel, row)];
    case Instead(rel, row) =>
      SelectEvent(log, InsteadEvent(rel, row));
      OrderedGrows(log, InsteadEvent(rel, row));
    case _ =>
      assert log + EventsOf(f) == log;
  }

  /** Storing a row, then for a heap row its index entries and its triggers. */
  lemma StoreKeepsOrder(log: seq<Event>, e: Event)
    requires Ordered(log) && Balanced(log) && IsKept(e)
    ensures Ordered(log + [e])
    ensures e.HeapEvent? ==> Ordered((log + [e]) + AfterInsert(e.rel, e.row)) && Balanced((log + [e]) + AfterInsert(e.rel, e.row))
  {
    hide Ordered, Select;
    SelectEvent(log, e);
    OrderedGrows(log, e);
    var l1 := log + [e];
    var i, a := IndexEvent(e.rel, e.row), AfterEvent(e.rel, e.row);
    if e.HeapEvent? {
      if e.rel.indices > 0 {
        SelectEvent(l1, i);
        OrderedGrows(l1, i);
        SelectEvent(l1 + [i], a);
        OrderedGrows(l1 + [i], a);
        assert l1 + AfterInsert(e.rel, e.row) == (l1 + [i]) + [a];
      } else {
        SelectEvent(l1, a);
        OrderedGrows(l1, a);
        assert l1 + AfterInsert(e.rel, e.row) == l1 + [a];
      }
    }
  }

  // ---- Counting ---------------------------------------------------------

  predicate Lost(f: Fate)
  {
    f.Suppressed? || f.Declined?
  }

  lemma OneFateCounts(f: Fate)
    requires !f.Refused?
    ensures |Select(EventsOf(f), IsKept)| + |Select(EventsOf(f), IsInstead)| == if Lost(f) then 0 else 1
  {
    hide Select;
    NothingSelected();
    match f
    case Stored(rel, row) =>
      var e, i, a := HeapEvent(rel, row), IndexEvent(rel, row), AfterEvent(rel, row);
      SelectEvent([], e);
      SelectEvent([e], i);
      SelectEvent([e], a);
      SelectEvent([e] + [i], a);
      assert [] + [e] == [e];
      assert EventsOf(f) == if rel.indices > 0 then ([e] + [i]) + [a] else [e] + [a];
    case Foreign(rel, row) =>
      var e, a := ForeignEvent(rel, row), AfterEvent(rel, row);
      SelectEvent([], e);
      SelectEvent([e], a);
      assert [] + [e] == [e] && EventsOf(f) == [e] + [a];
    case Instead(rel, row) =>
      SelectEvent([], InsteadEvent(rel, row));
      assert [] + [InsteadEvent(rel, row)] == EventsOf(f);
    case _ =>
  }

  lemma NothingSelected()
    ensures forall want :: Select([], want) == []
  {
  }
}
