/** Persistence of the graph: every flush writes the flows whose key the table
    does not hold yet. */
module Flush {
  import opened Bags
  import opened Graph

  /** A stored network event; ports are always written as 0. */
  datatype Row = Row(timestamp: nat, sourceService: string, sourceNamespace: string, sourceApplication: string,
                     destinationService: string, destinationNamespace: string, destinationApplication: string,
                     sourcePort: nat, destinationPort: nat, httpMethod: string, path: string, host: string)

  type Key = (string, string, string, nat)

  type Table = multiset<Row>

  /** Namespaces and the method are not part of the key. */
  function KeyOf(row: Row): Key {
    (row.sourceApplication, row.destinationApplication, row.path, row.destinationPort)
  }

  function RowOf(flow: Flow, now: nat): Row {
    Row(now, flow.source.applicationName, flow.source.namespace, flow.source.applicationName,
        flow.destination.applicationName, flow.destination.namespace, flow.destination.applicationName,
        0, 0, flow.httpMethod, flow.path, flow.destination.applicationName)
  }

  function Stamping(now: nat): Flow -> Row { flow => RowOf(flow, now) }

  ghost function Keys(table: Table): set<Key> { set row | row in table :: KeyOf(row) }

  /** The keys of the flows of a graph. */
  ghost function FlowKeys(g: Graph): set<Key> { set flow | flow in Flows(g) :: KeyOf(RowOf(flow, 0)) }

  /** Every column of the row that stores a flow at a time: the names serve as
      service names too, and the called application as the host. */
  ghost predicate Describes(row: Row, flow: Flow, now: nat) {
    && row.timestamp == now && row.path == flow.path && row.httpMethod == flow.httpMethod
    && row.sourceApplication == row.sourceService == flow.source.applicationName
    && row.sourceNamespace == flow.source.namespace
    && row.destinationApplication == row.destinationService == row.host == flow.destination.applicationName
    && row.destinationNamespace == flow.destination.namespace
    && row.sourcePort == row.destinationPort == 0
  }

  /** Some stored row has this caller, callee, path and port. */
  ghost predicate Stores(table: Table, source: string, destination: string, path: string, port: nat) {
    exists row :: && row in table && row.sourceApplication == source && row.destinationApplication == destination
                  && row.path == path && row.destinationPort == port
  }

  /** Some flow of the graph has this caller, callee and path. */
  ghost predicate Calls(g: Graph, source: string, destination: string, path: string) {
    exists flow :: && flow in Flows(g) && flow.source.applicationName == source
                   && flow.destination.applicationName == destination && flow.path == path
  }

  lemma StoresKey(table: Table, source: string, destination: string, path: string, port: nat)
    ensures Stores(table, source, destination, path, port) <==> (source, destination, path, port) in Keys(table)
  {
    if row :| && row in table && row.sourceApplication == source && row.destinationApplication == destination
              && row.path == path && row.destinationPort == port {
      assert KeyOf(row) in Keys(table);
    }
  }

  lemma CallsKey(g: Graph, source: string, destination: string, path: string, port: nat)
    ensures port == 0 && Calls(g, source, destination, path) <==> (source, destination, path, port) in FlowKeys(g)
  {
    if flow :| && flow in Flows(g) && flow.source.applicationName == source
               && flow.destination.applicationName == destination && flow.path == path {
      assert KeyOf(RowOf(flow, 0)) in FlowKeys(g);
    }
    if (source, destination, path, port) in FlowKeys(g) {
      var flow :| flow in Flows(g) && KeyOf(RowOf(flow, 0)) == (source, destination, path, port);
      assert flow.path == path;
    }
  }

  /** The rows whose key is not in `existing`. */
  function NewRows(events: seq<Row>, existing: set<Key>): seq<Row> {
    if events == [] then []
    else
      var last := events[|events| - 1];
      NewRows(events[..|events| - 1], existing) + if KeyOf(last) in existing then [] else [last]
  }

  /** Every event is added as often as it is listed if no stored row has its
      caller, callee, path and port, and not at all otherwise. */
  ghost predicate OnlyNewAdded(before: Table, events: seq<Row>, after: Table) {
    forall row :: after[row] == before[row]
      + if Stores(before, row.sourceApplication, row.destinationApplication, row.path, row.destinationPort) then 0
        else multiset(events)[row]
  }

  lemma EventsAdded(before: Table, events: seq<Row>)
    ensures OnlyNewAdded(before, events, before + multiset(NewRows(events, Keys(before))))
  {
    forall row ensures multiset(NewRows(events, Keys(before)))[row]
                    == if Stores(before, row.sourceApplication, row.destinationApplication, row.path,
                                 row.destinationPort) then 0
                       else multiset(events)[row] {
      NewRowsCount(events, Keys(before), row);
      StoresKey(before, row.sourceApplication, row.destinationApplication, row.path, row.destinationPort);
    }
  }

  class EventTable {
    var rows: Table

    constructor ()
      ensures rows == multiset{}
    {
      rows := multiset{};
    }

    method AddEvents(events: seq<Row>)
      modifies this
      ensures rows == old(rows) + multiset(NewRows(events, Keys(old(rows))))
      ensures OnlyNewAdded(old(rows), events, rows)
    {
      EventsAdded(rows, events);
      if events == [] {
        return;
      }
      var existing := set row | row in rows :: KeyOf(row);
      Insert(NewRows(events, existing));
    }

    method Insert(newEvents: seq<Row>)
      modifies this
      ensures rows == old(rows) + multiset(newEvents)
    {
      for i := 0 to |newEvents|
        invariant rows == old(rows) + multiset(newEvents[..i])
      {
        assert newEvents[..i + 1] == newEvents[..i] + [newEvents[i]];
        rows := rows + multiset{newEvents[i]};
      }
      assert newEvents[..|newEvents|] == newEvents;
    }

    /** One tick of the flush timer over a snapshot of the graph. */
    method Tick(g: Graph, now: nat)
      modifies this
      ensures Flushed(old(rows), g, now, rows)
    {
      var events := Snapshot(g, now);
      if events != [] {
        AddEvents(events);
      }
      assert IsSnapshot(g, now, events);
    }
  }

  /** All flows of the graph as rows, in the order the buckets come. */
  method Snapshot(g: Graph, now: nat) returns (events: seq<Row>)
    ensures IsSnapshot(g, now, events)
  {
    events := [];
    var todo := g.downstream;
    ImageUnion(multiset{}, Flows(g), Stamping(now));
    while todo.Keys != {}
      invariant multiset(events) + Image(Flat(todo), Stamping(now)) == Image(Flows(g), Stamping(now))
      decreases todo.Keys
    {
      var id :| id in todo.Keys;
      var rows := MapSeq(todo[id], Stamping(now));
      FlatRemove(todo, id);
      ImageUnion(multiset(todo[id]), Flat(todo - {id}), Stamping(now));
      ImageSeq(todo[id], Stamping(now));
      events := events + rows;
      assert (todo - {id}).Keys == todo.Keys - {id};
      todo := todo - {id};
    }
  }

  ghost predicate IsSnapshot(g: Graph, now: nat, events: seq<Row>) {
    multiset(events) == Image(Flows(g), Stamping(now))
  }

  /** `after` is the table after flushing `g` into `before`. */
  ghost predicate Flushed(before: Table, g: Graph, now: nat, after: Table) {
    exists events :: IsSnapshot(g, now, events) && after == before + multiset(NewRows(events, Keys(before)))
  }

  lemma {:induction false} NewRowsExact(events: seq<Row>, existing: set<Key>, row: Row)
    ensures row in NewRows(events, existing) <==> row in events && KeyOf(row) !in existing
  {
    if events != [] {
      var n := |events| - 1;
      assert events == events[..n] + [events[n]];
      NewRowsExact(events[..n], existing, row);
    }
  }

  lemma SnapshotKeys(g: Graph, now: nat, events: seq<Row>, key: Key)
    requires IsSnapshot(g, now, events)
    ensures key in FlowKeys(g) <==> exists row :: row in events && KeyOf(row) == key
  {
    assert forall row :: row in events <==> row in multiset(events);
    if key in FlowKeys(g) {
      var flow :| flow in Flows(g) && KeyOf(RowOf(flow, 0)) == key;
      ImageContains(Flows(g), Stamping(now), flow);
      assert RowOf(flow, now) in events;
    }
    if row :| row in events && KeyOf(row) == key {
      var flow := ImageMember(Flows(g), Stamping(now), row);
      assert KeyOf(RowOf(flow, 0)) == key;
    }
  }

  /** After a flush the table holds a row for a caller, callee and path exactly
      if it did before or the graph has such a flow. */
  lemma FlushedCalls(before: Table, g: Graph, now: nat, after: Table, source: string, destination: string,
                     path: string, port: nat)
    requires Flushed(before, g, now, after)
    ensures Stores(after, source, destination, path, port)
       <==> Stores(before, source, destination, path, port) || (port == 0 && Calls(g, source, destination, path))
  {
    FlushedKeys(before, g, now, after);
    StoresKey(after, source, destination, path, port);
    StoresKey(before, source, destination, path, port);
    CallsKey(g, source, destination, path, port);
  }

  lemma FlushedKeys(before: Table, g: Graph, now: nat, after: Table)
    requires Flushed(before, g, now, after)
    ensures Keys(after) == Keys(before) + FlowKeys(g)
  {
    var events :| IsSnapshot(g, now, events) && after == before + multiset(NewRows(events, Keys(before)));
    var added := NewRows(events, Keys(before));
    forall key ensures key in Keys(after) <==> key in Keys(before) || key in FlowKeys(g) {
      SnapshotKeys(g, now, events, key);
      KeysAdded(before, added, key);
      NewKeys(events, Keys(before), key);
    }
  }

  lemma KeysAdded(before: Table, added: seq<Row>, key: Key)
    ensures key in Keys(before + multiset(added))
       <==> key in Keys(before) || exists row :: row in added && KeyOf(row) == key
  {
    var after := before + multiset(added);
    if row :| row in before && KeyOf(row) == key {
      assert row in after;
    }
    if row :| row in added && KeyOf(row) == key {
      assert row in after;
    }
  }

  /** Keys not yet stored are all among the new rows. */
  lemma NewKeys(events: seq<Row>, existing: set<Key>, key: Key)
    ensures (exists row :: row in NewRows(events, existing) && KeyOf(row) == key)
       <==> key !in existing && exists row :: row in events && KeyOf(row) == key
  {
    if row :| row in NewRows(events, existing) && KeyOf(row) == key {
      NewRowsExact(events, existing, row);
    }
    if row :| row in events && KeyOf(row) == key {
      NewRowsExact(events, existing, row);
    }
  }

  lemma {:induction false} NothingNew(events: seq<Row>, existing: set<Key>)
    requires forall row :: row in events ==> KeyOf(row) in existing
    ensures NewRows(events, existing) == []
  {
    if events != [] {
      var n := |events| - 1;
      assert events[n] in events;
      NothingNew(events[..n], existing);
    }
  }

  /** Flushing a graph whose keys are all stored writes nothing. */
  lemma KnownKeysWriteNothing(before: Table, g: Graph, now: nat, after: Table)
    requires Flushed(before, g, now, after) && FlowKeys(g) <= Keys(before)
    ensures after == before
  {
    var events :| IsSnapshot(g, now, events) && after == before + multiset(NewRows(events, Keys(before)));
    forall row | row in events ensures KeyOf(row) in Keys(before) {
      SnapshotKeys(g, now, events, KeyOf(row));
    }
    NothingNew(events, Keys(before));
  }

  /** Flushing an unchanged graph again, at any time, writes nothing. */
  lemma FlushIdempotent(before: Table, g: Graph, now: nat, after: Table, later: nat, again: Table)
    requires Flushed(before, g, now, after) && Flushed(after, g, later, again)
    ensures again == after
  {
    FlushedKeys(before, g, now, after);
    KnownKeysWriteNothing(after, g, later, again);
  }

  /** A run of flushes: the table before each and after the last. */
  ghost predicate FlushRun(graphs: seq<Graph>, times: seq<nat>, tables: seq<Table>) {
    && |times| == |graphs| && |tables| == |graphs| + 1
    && forall i :: 0 <= i < |graphs| ==> Flushed(tables[i], graphs[i], times[i], tables[i + 1])
  }

  lemma {:induction false} KeysStay(graphs: seq<Graph>, times: seq<nat>, tables: seq<Table>, i: nat, j: nat)
    requires FlushRun(graphs, times, tables) && i <= j <= |graphs|
    ensures Keys(tables[i]) <= Keys(tables[j])
    decreases j
  {
    if i < j {
      KeysStay(graphs, times, tables, i, j - 1);
      FlushedKeys(tables[j - 1], graphs[j - 1], times[j - 1], tables[j]);
    }
  }

  lemma Inserted(before: Table, g: Graph, now: nat, after: Table, row: Row)
    requires Flushed(before, g, now, after)
    ensures after[row] >= before[row]
    ensures after[row] != before[row] ==> KeyOf(row) in FlowKeys(g) && KeyOf(row) !in Keys(before)
  {
    var events :| IsSnapshot(g, now, events) && after == before + multiset(NewRows(events, Keys(before)));
    if after[row] != before[row] {
      assert row in multiset(NewRows(events, Keys(before)));
      NewRowsExact(events, Keys(before), row);
      SnapshotKeys(g, now, events, KeyOf(row));
    }
  }

  lemma NotFlushedBefore(graphs: seq<Graph>, times: seq<nat>, tables: seq<Table>, i: nat, j: nat, key: Key)
    requires FlushRun(graphs, times, tables) && j < i < |graphs| && key !in Keys(tables[i])
    ensures key !in FlowKeys(graphs[j])
  {
    FlushedKeys(tables[j], graphs[j], times[j], tables[j + 1]);
    KeysStay(graphs, times, tables, j + 1, i);
  }

  lemma InsertedOnlyFirstKeys(graphs: seq<Graph>, times: seq<nat>, tables: seq<Table>, i: nat, row: Row)
    requires FlushRun(graphs, times, tables) && i < |graphs| && tables[i + 1][row] != tables[i][row]
    ensures KeyOf(row) in FlowKeys(graphs[i]) && KeyOf(row) !in Keys(tables[i])
    ensures forall j :: 0 <= j < i ==> KeyOf(row) !in FlowKeys(graphs[j])
  {
    Inserted(tables[i], graphs[i], times[i], tables[i + 1], row);
    forall j | 0 <= j < i ensures KeyOf(row) !in FlowKeys(graphs[j]) {
      NotFlushedBefore(graphs, times, tables, i, j, KeyOf(row));
    }
  }

  /** Rows are only ever added, and rows for a caller, callee and path are added
      only by the first flush whose graph has such a flow. */
  lemma InsertedOnlyFirst(graphs: seq<Graph>, times: seq<nat>, tables: seq<Table>, i: nat, row: Row)
    requires FlushRun(graphs, times, tables) && i < |graphs|
    ensures tables[i + 1][row] >= tables[i][row]
    ensures tables[i + 1][row] != tables[i][row] ==>
              var source, destination, path := row.sourceApplication, row.destinationApplication, row.path;
              && row.destinationPort == 0 && Calls(graphs[i], source, destination, path)
              && !Stores(tables[i], source, destination, path, 0)
              && forall j :: 0 <= j < i ==> !Calls(graphs[j], source, destination, path)
  {
    Inserted(tables[i], graphs[i], times[i], tables[i + 1], row);
    if tables[i + 1][row] != tables[i][row] {
      var source, destination, path := row.sourceApplication, row.destinationApplication, row.path;
      InsertedOnlyFirstKeys(graphs, times, tables, i, row);
      CallsKey(graphs[i], source, destination, path, row.destinationPort);
      StoresKey(tables[i], source, destination, path, row.destinationPort);
      forall j | 0 <= j < i ensures !Calls(graphs[j], source, destination, path) {
        CallsKey(graphs[j], source, destination, path, row.destinationPort);
      }
    }
  }

  /** Every column of a written row, and no other row describes the flow. */
  lemma RowDescribes(row: Row, flow: Flow, now: nat)
    ensures Describes(row, flow, now) <==> row == RowOf(flow, now)
  {
  }

  /** Rows determine their flows. */
  lemma DescribesOne(row: Row, flow: Flow, other: Flow, now: nat)
    requires Describes(row, flow, now) && Describes(row, other, now)
    ensures flow == other
  {
    assert flow.source == NodeId(row.sourceApplication, row.sourceNamespace) == other.source;
    assert flow.destination == NodeId(row.destinationApplication, row.destinationNamespace) == other.destination;
  }

  lemma {:induction false} NewRowsCount(events: seq<Row>, existing: set<Key>, row: Row)
    ensures multiset(NewRows(events, existing))[row]
         == if KeyOf(row) in existing then 0 else multiset(events)[row]
  {
    if events != [] {
      var n := |events| - 1;
      assert events == events[..n] + [events[n]];
      NewRowsCount(events[..n], existing, row);
    }
  }

  /** A flow is stored as often as the graph lists it if no stored row has its
      caller, callee and path, and not at all otherwise. */
  lemma FlowWritten(before: Table, g: Graph, now: nat, after: Table, flow: Flow, row: Row)
    requires Flushed(before, g, now, after) && Describes(row, flow, now)
    ensures after[row] == before[row]
              + if Stores(before, flow.source.applicationName, flow.destination.applicationName, flow.path, 0)
                then 0 else Flows(g)[flow]
  {
    var events :| IsSnapshot(g, now, events) && after == before + multiset(NewRows(events, Keys(before)));
    NewRowsCount(events, Keys(before), row);
    StoresKey(before, flow.source.applicationName, flow.destination.applicationName, flow.path, 0);
    RowDescribes(row, flow, now);
    forall other | Stamping(now)(other) == row ensures other == flow {
      RowDescribes(row, other, now);
      DescribesOne(row, flow, other, now);
    }
    ImageCount(Flows(g), Stamping(now), flow);
  }

  /** Rows that describe no flow of the graph stay as they were. */
  lemma OnlyFlowsWritten(before: Table, g: Graph, now: nat, after: Table, row: Row)
    requires Flushed(before, g, now, after) && forall flow :: flow in Flows(g) ==> !Describes(row, flow, now)
    ensures after[row] == before[row]
  {
    var events :| IsSnapshot(g, now, events) && after == before + multiset(NewRows(events, Keys(before)));
    NewRowsCount(events, Keys(before), row);
    if row in multiset(events) {
      var flow := ImageMember(Flows(g), Stamping(now), row);
      RowDescribes(row, flow, now);
      assert false;
    }
  }

  /** A flow is newly stored by a flush if and only if the graph has it and no
      stored row has its caller, callee and path: neither namespaces nor the
      method make a flow new. */
  lemma WrittenIffNew(before: Table, g: Graph, now: nat, after: Table, flow: Flow, row: Row)
    requires Flushed(before, g, now, after) && Describes(row, flow, now)
    ensures after[row] > before[row]
       <==> && flow in Flows(g)
            && forall stored :: stored in before ==>
                 || stored.sourceApplication != flow.source.applicationName
                 || stored.destinationApplication != flow.destination.applicationName
                 || stored.path != flow.path || stored.destinationPort != 0
  {
    FlowWritten(before, g, now, after, flow, row);
  }

  /** So a flow that differs from a stored one only in namespaces or in the
      method is never written. */
  lemma NamespaceIgnored(before: Table, g: Graph, now: nat, after: Table, flow: Flow, row: Row, other: Flow,
                         earlier: nat, stored: Row)
    requires Flushed(before, g, now, after) && Describes(row, flow, now)
    requires stored in before && Describes(stored, other, earlier)
    requires other.source.applicationName == flow.source.applicationName
    requires other.destination.applicationName == flow.destination.applicationName && other.path == flow.path
    ensures after[row] == before[row]
  {
    FlowWritten(before, g, now, after, flow, row);
    assert Stores(before, flow.source.applicationName, flow.destination.applicationName, flow.path, 0);
  }
}
