/** Stored operations and the saves behind them, with the process dying at any step of any save. */
module Durability {
  import opened Prelude
  import opened Config
  import opened Storage
  import opened StorageOps
  import opened SaveTransaction

  /** The data in memory and the disk. */
  datatype Store = Store(data: HttpServerFile, disk: Disk)

  /** An operation and the steps its save took, either to its end or up to the death of the
      process, which is then started again. */
  datatype Event = Call(op: Op, steps: seq<Step>) | Death(op: Op, steps: seq<Step>)

  /** A refused operation saves nothing, nor does one whose outcome could not be loaded. */
  predicate Possible(serde: Serde, store: Store, event: Event) {
    var outcome := Performed(store.data, event.op);
    if outcome.result.Done? && ValidFile(outcome.file)
    then SavesOnly(event.steps, outcome.file) && Run(serde, State(store.disk, Idle), event.steps)
    else event.steps == []
  }

  function DiskAfter(serde: Serde, store: Store, event: Event): Disk
    requires Possible(serde, store, event)
  {
    Final(serde, State(store.disk, Idle), event.steps).disk
  }

  /** What the caller is answered. */
  function AnswerOf(store: Store, event: Event): ApiResult<Server> {
    Saved(Performed(store.data, event.op), Renames(event.steps)).result
  }

  /** A program that is started again loads the file. */
  function After(serde: Serde, store: Store, event: Event): Store
    requires Possible(serde, store, event)
  {
    var disk := DiskAfter(serde, store, event);
    match event
    case Call(op, _) => Store(Performed(store.data, op).file, disk)
    case Death(_, _) =>
      match Load(serde, disk.main)
      case None => Store(store.data, disk)
      case Some(data) => Store(data, disk)
  }

  function Renamed(store: Store, event: Event, last: HttpServerFile): HttpServerFile {
    if Renames(event.steps) then Performed(store.data, event.op).file else last
  }

  lemma {:induction false} EventIsDurable(serde: Serde, store: Store, event: Event, last: HttpServerFile)
    requires serde.RoundTrips() && Possible(serde, store, event) && Load(serde, store.disk.main) == Some(last)
    ensures Load(serde, DiskAfter(serde, store, event).main) == Some(Renamed(store, event, last))
    ensures event.Death? ==> After(serde, store, event).data == Renamed(store, event, last)
  {
    OneSaveCommits(serde, store.disk, event.steps, Performed(store.data, event.op).file, last);
  }

  /** An operation that is answered with success is on the disk, exactly as it is in memory. */
  lemma {:induction false} DoneIsOnDisk(serde: Serde, store: Store, event: Event, last: HttpServerFile)
    requires serde.RoundTrips() && Possible(serde, store, event) && Load(serde, store.disk.main) == Some(last)
    requires event.Call? && AnswerOf(store, event).Done?
    ensures var after := After(serde, store, event); Load(serde, after.disk.main) == Some(after.data)
  {
    EventIsDurable(serde, store, event, last);
  }

  predicate AllPossible(serde: Serde, store: Store, events: seq<Event>)
    decreases |events|
  {
    events == [] ||
    (Possible(serde, store, events[0]) && AllPossible(serde, After(serde, store, events[0]), events[1..]))
  }

  function AfterAll(serde: Serde, store: Store, events: seq<Event>): Store
    requires AllPossible(serde, store, events)
    decreases |events|
  {
    if events == [] then store else AfterAll(serde, After(serde, store, events[0]), events[1..])
  }

  /** The data of the last save that came to its rename. */
  function LastRenamed(serde: Serde, store: Store, events: seq<Event>, last: HttpServerFile): HttpServerFile
    requires AllPossible(serde, store, events)
    decreases |events|
  {
    if events == [] then last
    else LastRenamed(serde, After(serde, store, events[0]), events[1..], Renamed(store, events[0], last))
  }

  /** Over any run of operations, with saves that fail or die with the process anywhere: the file
      loads, and a program that is started then has the data of the last rename, which is that of
      the last operation answered with success or of one whose caller was not answered. */
  lemma {:induction false} RunIsDurable(serde: Serde, store: Store, events: seq<Event>, last: HttpServerFile)
    requires serde.RoundTrips() && AllPossible(serde, store, events) && Load(serde, store.disk.main) == Some(last)
    ensures Load(serde, AfterAll(serde, store, events).disk.main) == Some(LastRenamed(serde, store, events, last))
    ensures ValidFile(LastRenamed(serde, store, events, last))
    decreases |events|
  {
    if events != [] {
      EventIsDurable(serde, store, events[0], last);
      RunIsDurable(serde, After(serde, store, events[0]), events[1..], Renamed(store, events[0], last));
    }
  }
}
