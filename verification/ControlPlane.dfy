/** The admin handlers: each stores a change and then brings the runtime to it. */
module ControlPlane {
  import opened Prelude
  import opened Text
  import opened Sequences
  import opened Config
  import opened Storage
  import opened StorageOps
  import opened Runtime
  import opened RegistrySoundness

  datatype System = System(file: HttpServerFile, registry: Registry)

  /** An admin call; `binds` tells whether the socket can be bound, should one be needed. */
  datatype Call =
    | Operate(op: Op, binds: bool)
    | ReloadServer(id: Str, binds: bool)

  function Lookup(file: HttpServerFile, id: Str): Option<Server> {
    match ServerIndex(file.items, id)
    case None => None
    case Some(i) => Some(file.items[i])
  }

  /** The runtime's part of a call that has been stored. */
  function Followed(registry: Registry, op: Op, server: Server, binds: bool): Registry {
    match op
    case Create(_, _) => Applied(registry, server, binds).0
    case Delete(_) => Halted(registry, server.id)
    case Change(_, edit) =>
      if server.enabled then Applied(registry, server, binds).0
      else if edit.SetEnabled? then Halted(registry, server.id)
      else registry
  }

  function Handled(sys: System, call: Call, saves: bool): System {
    match call
    case Operate(op, binds) =>
      var outcome := Saved(Performed(sys.file, op), saves);
      (match outcome.result
       case Refused(_) => System(outcome.file, sys.registry)
       case Done(server) => System(outcome.file, Followed(sys.registry, op, server, binds)))
    case ReloadServer(id, binds) =>
      (match Lookup(sys.file, id)
       case None => sys
       case Some(server) =>
         if server.enabled then sys.(registry := Applied(sys.registry, server, binds).0) else sys)
  }

  predicate Applies(op: Op, server: Server) {
    op.Create? || (op.Change? && server.enabled)
  }

  /** What a call answers: a change that is stored, and a runtime that could follow. */
  function Answered(sys: System, call: Call, saves: bool): ApiResult<Server> {
    match call
    case Operate(op, binds) =>
      (match Saved(Performed(sys.file, op), saves).result
       case Refused(e) => Refused(e)
       case Done(server) =>
         if Applies(op, server) && !Applied(sys.registry, server, binds).1 then Refused(Internal) else Done(server))
    case ReloadServer(id, binds) =>
      (match Lookup(sys.file, id)
       case None => Refused(NotFound)
       case Some(server) =>
         if server.enabled && !Applied(sys.registry, server, binds).1 then Refused(Internal) else Done(server))
  }

  // ----- Agreement

  /** A server is registered only if it is stored and enabled, at its stored address and with its
      stored configuration; one that is stored and enabled and is not registered has failed. */
  predicate AgreesAt(sys: System, id: Str) {
    match Lookup(sys.file, id)
    case None => id !in sys.registry.listens
    case Some(server) =>
      if id in sys.registry.listens then server.enabled && RunsAs(sys.registry, server)
      else server.enabled ==> id in sys.registry.infos && sys.registry.infos[id].status == Status.Failed
  }

  ghost predicate Agrees(sys: System) {
    forall id: Str :: AgreesAt(sys, id)
  }

  ghost predicate Orderly(sys: System) {
    ValidFile(sys.file) && Sound(sys.registry) && Agrees(sys)
  }

  // ----- Looking up after a change

  lemma LookupHasId(file: HttpServerFile, id: Str)
    ensures Lookup(file, id).Some? ==> Lookup(file, id).value.id == id
  {}

  lemma {:induction false} IndexOfUpdate(items: seq<Server>, i: nat, server: Server, id: Str)
    requires i < |items| && items[i].id == server.id
    ensures ServerIndex(items[i := server], id) == ServerIndex(items, id)
  {
    var n := |items| - 1;
    if i < n {
      IndexOfUpdate(items[..n], i, server, id);
      UpdateBefore(items, i, server);
    } else {
      UpdateLast(items, server);
    }
  }

  lemma {:induction false} IndexOfPush(items: seq<Server>, server: Server, id: Str)
    ensures ServerIndex(items + [server], id) ==
            if ServerIndex(items, id).Some? then ServerIndex(items, id)
            else if server.id == id then Some(|items|) else None
  {
    Pushed(items, server);
  }

  lemma {:induction false} NoIndex(items: seq<Server>, id: Str)
    ensures ServerIndex(items, id) == None <==> id !in ServerIds(items)
  {
    if items != [] {
      NoIndex(items[..|items| - 1], id);
    }
  }

  lemma {:induction false} RemovedIsGone(items: seq<Server>, i: nat)
    requires i < |items| && GoodServers(items)
    ensures ServerIndex(RemoveAt(items, i), items[i].id) == None
  {
    var n := |items| - 1;
    if i < n {
      RemovedIsGone(items[..n], i);
      IdAt(items[..n], i);
      RemoveBefore(items, i);
      IndexOfPush(RemoveAt(items[..n], i), items[n], items[i].id);
    } else {
      RemoveLast(items);
      NoIndex(items[..n], items[n].id);
    }
  }

  lemma {:induction false} OthersAreFound(items: seq<Server>, i: nat, id: Str)
    requires i < |items| && items[i].id != id
    ensures ServerIndex(RemoveAt(items, i), id).Some? <==> ServerIndex(items, id).Some?
    ensures ServerIndex(items, id).Some? ==>
              RemoveAt(items, i)[ServerIndex(RemoveAt(items, i), id).value] == items[ServerIndex(items, id).value]
  {
    var n := |items| - 1;
    if i < n {
      OthersAreFound(items[..n], i, id);
      RemoveBefore(items, i);
      IndexOfPush(RemoveAt(items[..n], i), items[n], id);
    } else {
      RemoveLast(items);
    }
  }

  lemma {:induction false} IdAt(items: seq<Server>, i: nat)
    requires i < |items|
    ensures items[i].id in ServerIds(items)
  {
    if i < |items| - 1 {
      IdAt(items[..|items| - 1], i);
    }
  }

  /** A stored operation changes what is looked up for its own server only. */
  predicate Stores(before: HttpServerFile, after: HttpServerFile, id: Str, now: Option<Server>, x: Str) {
    Lookup(after, x) == if x == id then now else Lookup(before, x)
  }

  lemma {:induction false} UpdateStores(file: HttpServerFile, i: nat, server: Server, x: Str)
    requires i < |file.items| && file.items[i].id == server.id && ServerIndex(file.items, server.id) == Some(i)
    ensures Stores(file, file.(items := file.items[i := server]), server.id, Some(server), x)
  {
    IndexOfUpdate(file.items, i, server, x);
  }

  lemma {:induction false} PushStores(file: HttpServerFile, server: Server, x: Str)
    requires server.id !in ServerIds(file.items)
    ensures Stores(file, file.(items := file.items + [server]), server.id, Some(server), x)
  {
    NoIndex(file.items, server.id);
    IndexOfPush(file.items, server, x);
  }

  lemma {:induction false} RemovalStores(file: HttpServerFile, i: nat, x: Str)
    requires ValidFile(file) && i < |file.items| && ServerIndex(file.items, file.items[i].id) == Some(i)
    ensures Stores(file, file.(items := RemoveAt(file.items, i)), file.items[i].id, None, x)
  {
    if x == file.items[i].id {
      RemovedIsGone(file.items, i);
    } else {
      OthersAreFound(file.items, i, x);
    }
  }

  /** The stored server after an operation, or none. */
  function Now(op: Op, server: Server): Option<Server> {
    if op.Delete? then None else Some(server)
  }

  lemma {:induction false} EditKeepsId(server: Server, edit: Edit)
    requires Edited(server, edit).Done?
    ensures Edited(server, edit).value.id == server.id
    ensures !edit.SetEnabled? ==> Edited(server, edit).value.enabled == server.enabled
  {}

  lemma {:induction false} OperationStores(file: HttpServerFile, op: Op, x: Str)
    requires ValidFile(file) && Fresh(file, op) && Performed(file, op).result.Done?
    ensures var outcome := Performed(file, op);
            Stores(file, outcome.file, outcome.result.value.id, Now(op, outcome.result.value), x)
  {
    match op
    case Create(request, newId) =>
      PushStores(file, NewServer(request, newId), x);
    case Change(id, edit) =>
      var i := ServerIndex(file.items, id).value;
      EditKeepsId(file.items[i], edit);
      UpdateStores(file, i, Edited(file.items[i], edit).value, x);
    case Delete(id) =>
      RemovalStores(file, ServerIndex(file.items, id).value, x);
  }

  // ----- The runtime follows

  /** Other servers agree as before. */
  lemma OtherAgrees(before: System, after: System, x: Str)
    requires AgreesAt(before, x) && Lookup(after.file, x) == Lookup(before.file, x)
    requires Untouched(before.registry, after.registry, x)
    ensures AgreesAt(after, x)
  {
    LookupHasId(before.file, x);
  }

  /** What the runtime does for the server of the operation. */
  lemma FollowedAgrees(registry: Registry, op: Op, server: Server, binds: bool, known: bool)
    requires Sound(registry) && (server.id in registry.listens ==> known)
    requires op.Create? ==> server.enabled
    requires op.Change? && !server.enabled && !op.edit.SetEnabled? ==> !known
    ensures var after := Followed(registry, op, server, binds);
            && Sound(after) && (forall x: Str | x != server.id :: Untouched(registry, after, x))
            && (op.Delete? ==> server.id !in after.listens)
            && (!op.Delete? ==>
                  if server.id in after.listens then server.enabled && RunsAs(after, server)
                  else server.enabled ==>
                         server.id in after.infos && after.infos[server.id].status == Status.Failed)
  {
    if op.Delete? || (op.Change? && !server.enabled && op.edit.SetEnabled?) {
      HaltedIsSound(registry, server.id);
    } else if server.enabled {
      AppliedIsSound(registry, server, binds);
    }
  }

  lemma HandledAgrees(sys: System, op: Op, binds: bool, server: Server, file: HttpServerFile)
    requires Sound(sys.registry) && Agrees(sys)
    requires forall x: Str :: Stores(sys.file, file, server.id, Now(op, server), x)
    requires op.Create? ==> server.enabled
    requires op.Change? && !op.edit.SetEnabled? ==>
               Lookup(sys.file, server.id).Some? && Lookup(sys.file, server.id).value.enabled == server.enabled
    ensures Sound(Followed(sys.registry, op, server, binds))
    ensures Agrees(System(file, Followed(sys.registry, op, server, binds)))
  {
    var after := System(file, Followed(sys.registry, op, server, binds));
    assert AgreesAt(sys, server.id);
    FollowedAgrees(sys.registry, op, server, binds, server.id in sys.registry.listens);
    forall x: Str ensures AgreesAt(after, x) {
      assert AgreesAt(sys, x) && Stores(sys.file, file, server.id, Now(op, server), x);
      if x != server.id {
        OtherAgrees(sys, after, x);
      }
    }
  }

  lemma {:induction false} ResultOf(file: HttpServerFile, op: Op)
    requires Performed(file, op).result.Done?
    ensures var server := Performed(file, op).result.value;
            && (op.Create? ==> server.enabled)
            && (op.Change? && !op.edit.SetEnabled? ==>
                  Lookup(file, server.id).Some? && Lookup(file, server.id).value.enabled == server.enabled)
  {
    if op.Change? {
      var i := ServerIndex(file.items, op.id).value;
      EditKeepsId(file.items[i], op.edit);
    }
  }

  lemma {:induction false} FailureStoresNothing(file: HttpServerFile, op: Op)
    requires Performed(file, op).result.Refused?
    ensures Performed(file, op).file == file
  {}

  predicate FreshCall(sys: System, call: Call) {
    call.Operate? ==> Fresh(sys.file, call.op)
  }

  /** A call whose save succeeds, if it has one, leaves storage and runtime in agreement, whether
      or not a socket could be bound. */
  lemma CallKeepsOrder(sys: System, call: Call)
    requires Orderly(sys) && FreshCall(sys, call)
    ensures Orderly(Handled(sys, call, true))
  {
    match call
    case Operate(op, binds) =>
      OperationKeepsValid(sys.file, op);
      var outcome := Performed(sys.file, op);
      if outcome.result.Done? {
        var server := outcome.result.value;
        forall x: Str ensures Stores(sys.file, outcome.file, server.id, Now(op, server), x) {
          OperationStores(sys.file, op, x);
        }
        ResultOf(sys.file, op);
        HandledAgrees(sys, op, binds, server, outcome.file);
      } else {
        FailureStoresNothing(sys.file, op);
      }
    case ReloadServer(id, binds) =>
      if Lookup(sys.file, id).Some? && Lookup(sys.file, id).value.enabled {
        ReloadAgrees(sys, Lookup(sys.file, id).value, binds);
      }
  }

  // ----- What a call answers

  /** The server a call is about. */
  function Subject(call: Call): Str {
    match call
    case ReloadServer(id, _) => id
    case Operate(Create(_, newId), _) => newId
    case Operate(Change(id, _), _) => id
    case Operate(Delete(id), _) => id
  }

  /** The server is stored, and it runs as it is stored if it is enabled, and not at all otherwise. */
  predicate Runs(sys: System, server: Server) {
    && Lookup(sys.file, server.id) == Some(server)
    && (if server.enabled then RunsAs(sys.registry, server) else server.id !in sys.registry.listens)
  }

  /** The server is stored and enabled and could not be started. */
  predicate Fails(sys: System, id: Str) {
    && Lookup(sys.file, id).Some? && Lookup(sys.file, id).value.enabled && id !in sys.registry.listens
    && id in sys.registry.infos && sys.registry.infos[id].status == Status.Failed
  }

  predicate Gone(sys: System, id: Str) {
    Lookup(sys.file, id).None? && id !in sys.registry.listens
  }

  predicate Truthful(before: System, call: Call, after: System, answer: ApiResult<Server>) {
    match answer
    case Done(server) =>
      && server.id == Subject(call)
      && (if call.Operate? && call.op.Delete? then Gone(after, server.id) else Runs(after, server))
    case Refused(error) => if error == Internal then Fails(after, Subject(call)) else after == before
  }

  lemma {:induction false} PerformedIs(file: HttpServerFile, op: Op, binds: bool)
    ensures match Performed(file, op).result
            case Done(server) => server.id == Subject(Operate(op, binds))
            case Refused(error) => error != Internal && Performed(file, op).file == file
  {
    if op.Change? {
      var i := ServerIndex(file.items, op.id);
      if i.Some? && Edited(file.items[i.value], op.edit).Done? {
        EditKeepsId(file.items[i.value], op.edit);
      }
    }
  }

  lemma AppliedRunsOrFails(registry: Registry, server: Server, binds: bool)
    requires Sound(registry)
    ensures var (after, ok) := Applied(registry, server, binds);
            if ok then RunsAs(after, server)
            else server.id !in after.listens && server.id in after.infos &&
                 after.infos[server.id].status == Status.Failed
  {
    AppliedIsSound(registry, server, binds);
  }

  lemma {:induction false} FollowedIsTruthful(sys: System, op: Op, binds: bool, server: Server, after: System)
    requires Sound(sys.registry) && Agrees(after) && server.id == Subject(Operate(op, binds))
    requires after.registry == Followed(sys.registry, op, server, binds)
    requires Lookup(after.file, server.id) == Now(op, server) && (op.Create? ==> server.enabled)
    ensures Truthful(sys, Operate(op, binds), after,
                     if Applies(op, server) && !Applied(sys.registry, server, binds).1 then Refused(Internal)
                     else Done(server))
  {
    assert AgreesAt(after, server.id);
    AppliedRunsOrFails(sys.registry, server, binds);
  }

  lemma OperationIsTruthful(sys: System, op: Op, binds: bool)
    requires Orderly(sys) && Fresh(sys.file, op)
    ensures Truthful(sys, Operate(op, binds), Handled(sys, Operate(op, binds), true),
                     Answered(sys, Operate(op, binds), true))
  {
    CallKeepsOrder(sys, Operate(op, binds));
    OperationKeepsValid(sys.file, op);
    PerformedIs(sys.file, op, binds);
    var outcome := Performed(sys.file, op);
    if outcome.result.Done? {
      OperationStores(sys.file, op, outcome.result.value.id);
      ResultOf(sys.file, op);
      FollowedIsTruthful(sys, op, binds, outcome.result.value, Handled(sys, Operate(op, binds), true));
    }
  }

  /** An answer is true: done means stored and running as stored, disabled and not running, or gone;
      an internal error means stored and failed to start; any other refusal means nothing has changed. */
  lemma AnswersAreTrue(sys: System, call: Call)
    requires Orderly(sys) && FreshCall(sys, call)
    ensures call.ReloadServer? && Answered(sys, call, true) == Refused(NotFound) ==> Lookup(sys.file, call.id).None?
    ensures Truthful(sys, call, Handled(sys, call, true), Answered(sys, call, true))
  {
    match call
    case Operate(op, binds) => OperationIsTruthful(sys, op, binds);
    case ReloadServer(id, binds) =>
      assert AgreesAt(sys, id);
      if Lookup(sys.file, id).Some? {
        LookupHasId(sys.file, id);
        AppliedRunsOrFails(sys.registry, Lookup(sys.file, id).value, binds);
      }
  }

  // ----- What a call leaves alone

  lemma {:induction false} FollowedTouchesOne(registry: Registry, op: Op, server: Server, binds: bool, x: Str)
    requires Sound(registry) && x != server.id
    ensures Untouched(registry, Followed(registry, op, server, binds), x)
  {
    AppliedIsSound(registry, server, binds);
    HaltedIsSound(registry, server.id);
  }

  /** A call leaves every other server as it is, stored and running, whether its save succeeds or not. */
  lemma OthersStay(sys: System, call: Call, saves: bool, x: Str)
    requires Orderly(sys) && FreshCall(sys, call) && x != Subject(call)
    ensures Lookup(Handled(sys, call, saves).file, x) == Lookup(sys.file, x)
    ensures Untouched(sys.registry, Handled(sys, call, saves).registry, x)
  {
    match call
    case Operate(op, binds) =>
      PerformedIs(sys.file, op, binds);
      var outcome := Performed(sys.file, op);
      if outcome.result.Done? {
        OperationStores(sys.file, op, x);
        FollowedTouchesOne(sys.registry, op, outcome.result.value, binds, x);
      }
    case ReloadServer(id, binds) =>
      if Lookup(sys.file, id).Some? {
        LookupHasId(sys.file, id);
        AppliedIsSound(sys.registry, Lookup(sys.file, id).value, binds);
      }
  }

  /** A server that is disabled or deleted stops, at once or when its connections are closed; any other
      change of a disabled server, and its reload, leave the runtime as it is. */
  lemma DisabledStops(sys: System, call: Call)
    requires Orderly(sys) && FreshCall(sys, call) && Answered(sys, call, true).Done?
    requires var server := Answered(sys, call, true).value; (call.Operate? && call.op.Delete?) || !server.enabled
    ensures var before, after := sys.registry, Handled(sys, call, true).registry;
            var current := InfoOf(before.infos, Subject(call));
            if call.Operate? && (call.op.Delete? || (call.op.Change? && call.op.edit.SetEnabled?)) then
              && Subject(call) !in after.listens && Subject(call) in after.infos
              && after.infos[Subject(call)] ==
                 Info(if current.connections > 0 then Stopping else Stopped,
                      current.connections, current.requests, false)
            else after == before
  {
    match call
    case Operate(op, binds) =>
      PerformedIs(sys.file, op, binds);
      OperationKeepsValid(sys.file, op);
      ResultOf(sys.file, op);
      HaltedIsSound(sys.registry, Subject(call));
    case ReloadServer(_, _) =>
  }

  lemma ReloadAgrees(sys: System, server: Server, binds: bool)
    requires Orderly(sys) && Lookup(sys.file, server.id) == Some(server) && server.enabled
    ensures Orderly(sys.(registry := Applied(sys.registry, server, binds).0))
  {
    var after := sys.(registry := Applied(sys.registry, server, binds).0);
    AppliedIsSound(sys.registry, server, binds);
    forall x: Str ensures AgreesAt(after, x) {
      assert AgreesAt(sys, x);
      if x != server.id {
        OtherAgrees(sys, after, x);
      }
    }
  }

  // ----- Start and run

  /** At the start every enabled server of the file is applied in turn; failures are passed over. */
  function Launched(items: seq<Server>, binds: seq<bool>): Registry
    requires |binds| == |items|
  {
    if items == [] then EMPTY_REGISTRY
    else
      var n := |items| - 1;
      var before := Launched(items[..n], binds[..n]);
      LaunchedOne(before, items[n], binds[n])
  }

  function LaunchedOne(before: Registry, server: Server, binds: bool): Registry {
    if server.enabled then Applied(before, server, binds).0 else before
  }

  /** The servers that were come to so far. */
  ghost predicate LaunchAgrees(items: seq<Server>, registry: Registry) {
    Orderly(System(HttpServerFile(1, items), registry))
  }

  lemma NothingLaunched()
    ensures LaunchAgrees([], EMPTY_REGISTRY)
  {
    var sys := System(HttpServerFile(1, []), EMPTY_REGISTRY);
    forall id: Str ensures AgreesAt(sys, id) && ListedAt(sys.registry, id) {}
    forall addr: Str ensures SoundAt(sys.registry, addr) {}
  }

  lemma {:induction false} OneMoreLaunched(items: seq<Server>, before: Registry, last: Server, binds: bool)
    requires LaunchAgrees(items, before)
    requires GoodServer(last) && last.id !in ServerIds(items)
    ensures LaunchAgrees(items + [last], LaunchedOne(before, last, binds))
  {
    var was := System(HttpServerFile(1, items), before);
    var now := System(HttpServerFile(1, items + [last]), LaunchedOne(before, last, binds));
    PushServer(items, last);
    NoIndex(items, last.id);
    assert AgreesAt(was, last.id);
    AppliedIsSound(before, last, binds);
    forall x: Str ensures AgreesAt(now, x) {
      assert AgreesAt(was, x);
      PushStores(was.file, last, x);
      if x != last.id {
        OtherAgrees(was, now, x);
      }
    }
  }

  /** After the start storage and runtime agree, whichever sockets could be bound. */
  lemma {:induction false} LaunchIsOrderly(items: seq<Server>, binds: seq<bool>)
    requires |binds| == |items| && GoodServers(items)
    ensures LaunchAgrees(items, Launched(items, binds))
  {
    if items == [] {
      NothingLaunched();
    } else {
      var n := |items| - 1;
      LaunchIsOrderly(items[..n], binds[..n]);
      OneMoreLaunched(items[..n], Launched(items[..n], binds[..n]), items[n], binds[n]);
      FrontAndLast(items);
    }
  }

  function HandledAll(sys: System, calls: seq<Call>): System
    decreases |calls|
  {
    if calls == [] then sys else HandledAll(Handled(sys, calls[0], true), calls[1..])
  }

  predicate AllFresh(sys: System, calls: seq<Call>)
    decreases |calls|
  {
    calls == [] || (FreshCall(sys, calls[0]) && AllFresh(Handled(sys, calls[0], true), calls[1..]))
  }

  lemma {:induction false} RunKeepsOrder(sys: System, calls: seq<Call>)
    requires Orderly(sys) && AllFresh(sys, calls)
    ensures Orderly(HandledAll(sys, calls))
    decreases |calls|
  {
    if calls != [] {
      CallKeepsOrder(sys, calls[0]);
      RunKeepsOrder(Handled(sys, calls[0], true), calls[1..]);
    }
  }

  // ----- Addresses

  /** The address is the host, a colon, and decimal digits for the port. */
  predicate AddressOf(addr: Str, host: Str, port: nat) {
    && |host| < |addr| - 1 && addr[..|host|] == host && addr[|host|] == 58
    && var digits := addr[|host| + 1..];
       (forall k | 0 <= k < |digits| :: 48 <= digits[k] <= 57) && DecimalValue(digits) == port
  }

  lemma AddressSays(server: Server)
    ensures AddressOf(Address(server), server.listen.host, server.listen.port)
  {
    var host, digits := server.listen.host, Decimal(server.listen.port);
    DecimalRoundTrip(server.listen.port);
    Hosts.LastColon(host, digits);
  }

  lemma LastColonAt(addr: Str, host: Str, port: nat, k: nat)
    requires AddressOf(addr, host, port)
    ensures |host| < k < |addr| ==> addr[k] != 58
  {
    if |host| < k < |addr| {
      assert addr[k] == addr[|host| + 1..][k - |host| - 1];
    }
  }

  /** An address has one host and one port. */
  lemma OneAddress(addr: Str, host: Str, port: nat, otherHost: Str, otherPort: nat)
    requires AddressOf(addr, host, port) && AddressOf(addr, otherHost, otherPort)
    ensures host == otherHost && port == otherPort
  {
    LastColonAt(addr, host, port, |otherHost|);
    LastColonAt(addr, otherHost, otherPort, |host|);
  }

  /** Servers have one address exactly when they have one host and one port. */
  lemma AddressesAgree(a: Server, b: Server)
    ensures Address(a) == Address(b) <==> a.listen.host == b.listen.host && a.listen.port == b.listen.port
  {
    AddressSays(a);
    AddressSays(b);
    if Address(a) == Address(b) {
      OneAddress(Address(a), a.listen.host, a.listen.port, b.listen.host, b.listen.port);
    }
  }

  /** A registered server has a listener at the host and port it is stored with. */
  predicate ListensAsStored(sys: System, id: Str) {
    id in sys.registry.listens ==>
      && Lookup(sys.file, id).Some? && sys.registry.listens[id] in sys.registry.listeners
      && var listen := Lookup(sys.file, id).value.listen;
         AddressOf(sys.registry.listens[id], listen.host, listen.port)
  }

  /** Registered servers share a group exactly when their stored hosts and ports agree. */
  predicate SharesAsStored(sys: System, a: Str, b: Str) {
    a in sys.registry.listens && b in sys.registry.listens ==>
      && Lookup(sys.file, a).Some? && Lookup(sys.file, b).Some?
      && var x, y := Lookup(sys.file, a).value.listen, Lookup(sys.file, b).value.listen;
         sys.registry.listens[a] == sys.registry.listens[b] <==> x.host == y.host && x.port == y.port
  }

  lemma OrderlyListens(sys: System, id: Str)
    requires Orderly(sys)
    ensures ListensAsStored(sys, id)
  {
    assert AgreesAt(sys, id) && ListedAt(sys.registry, id);
    if id in sys.registry.listens {
      AddressSays(Lookup(sys.file, id).value);
    }
  }

  lemma OrderlyShares(sys: System, a: Str, b: Str)
    requires Orderly(sys)
    ensures SharesAsStored(sys, a, b)
  {
    assert AgreesAt(sys, a) && AgreesAt(sys, b);
    if a in sys.registry.listens && b in sys.registry.listens {
      AddressesAgree(Lookup(sys.file, a).value, Lookup(sys.file, b).value);
    }
  }

  /** From the start of the program on, over any run of admin calls whose saves succeed, with
      sockets that can be bound or not: a server is registered only if it is stored and enabled,
      at its address and with its configuration; one that should be and is not has failed; an
      address has a listener exactly when a server is registered there; and servers share one
      exactly when they are stored with one host and one port. */
  lemma StorageAndRuntimeAgree(items: seq<Server>, binds: seq<bool>, calls: seq<Call>, addr: Str)
    requires |binds| == |items| && GoodServers(items)
    requires AllFresh(System(HttpServerFile(1, items), Launched(items, binds)), calls)
    ensures var sys := HandledAll(System(HttpServerFile(1, items), Launched(items, binds)), calls);
            && ValidFile(sys.file) && Agrees(sys)
            && (addr in sys.registry.listeners <==>
                exists id :: id in sys.registry.listens && sys.registry.listens[id] == addr)
            && (forall id: Str :: ListensAsStored(sys, id))
            && (forall a: Str, b: Str :: SharesAsStored(sys, a, b))
  {
    var start := System(HttpServerFile(1, items), Launched(items, binds));
    LaunchIsOrderly(items, binds);
    RunKeepsOrder(start, calls);
    var sys := HandledAll(start, calls);
    ListenerIffServer(sys.registry, addr);
    forall id: Str ensures ListensAsStored(sys, id) {
      OrderlyListens(sys, id);
    }
    forall a: Str, b: Str ensures SharesAsStored(sys, a, b) {
      OrderlyShares(sys, a, b);
    }
  }

  // ----- Saves that fail

  /** What a failed save leaves in memory still fits the runtime: nothing was changed, or only a
      server that does not run and need not, or one that has failed to run. */
  predicate Survives(sys: System, op: Op) {
    match Performed(sys.file, op).result
    case Refused(_) => true
    case Done(server) =>
      || op.Delete?
      || (if server.id in sys.registry.listens then Lookup(sys.file, server.id) == Some(server)
          else !server.enabled ||
               (server.id in sys.registry.infos && sys.registry.infos[server.id].status == Status.Failed))
  }

  lemma {:induction false} OthersSurvive(sys: System, op: Op, x: Str)
    requires Orderly(sys) && Fresh(sys.file, op) && Performed(sys.file, op).result.Done?
    requires x != Performed(sys.file, op).result.value.id
    ensures AgreesAt(System(Performed(sys.file, op).file, sys.registry), x)
  {
    assert AgreesAt(sys, x);
    OperationStores(sys.file, op, x);
  }

  /** Of the deleted server and of the changed one. */
  lemma {:induction false} OwnSurvives(sys: System, op: Op)
    requires Orderly(sys) && Fresh(sys.file, op) && Performed(sys.file, op).result.Done?
    ensures AgreesAt(System(Performed(sys.file, op).file, sys.registry), Performed(sys.file, op).result.value.id) <==>
            Survives(sys, op)
  {
    var server := Performed(sys.file, op).result.value;
    assert AgreesAt(sys, server.id);
    OperationStores(sys.file, op, server.id);
    if op.Delete? {
      DeletedWasStored(sys.file, op);
    }
  }

  /** Only a disabled server is deleted. */
  lemma {:induction false} DeletedWasStored(file: HttpServerFile, op: Op)
    requires op.Delete? && Performed(file, op).result.Done?
    ensures var server := Performed(file, op).result.value;
            Lookup(file, server.id) == Some(server) && !server.enabled
  {}

  /** A save that fails is not rolled back, and its change is not brought to the runtime: storage
      in memory and the runtime agree afterwards if and only if the change survives that. */
  lemma FailedSaveAgreement(sys: System, op: Op, binds: bool)
    requires Orderly(sys) && Fresh(sys.file, op)
    ensures Agrees(Handled(sys, Operate(op, binds), false)) <==> Survives(sys, op)
  {
    var after := Handled(sys, Operate(op, binds), false);
    if Performed(sys.file, op).result.Done? {
      var server := Performed(sys.file, op).result.value;
      OwnSurvives(sys, op);
      forall x: Str | x != server.id ensures AgreesAt(after, x) {
        OthersSurvive(sys, op, x);
      }
      assert Agrees(after) ==> AgreesAt(after, server.id);
    } else {
      FailureStoresNothing(sys.file, op);
    }
  }

  /** So a running server that was to be disabled goes on running. */
  lemma FailedSaveDisagrees(sys: System, id: Str, binds: bool)
    requires Orderly(sys) && id in sys.registry.listens
    ensures !Agrees(Handled(sys, Operate(Change(id, SetEnabled(false)), binds), false))
  {
    assert AgreesAt(sys, id);
    FailedSaveAgreement(sys, Change(id, SetEnabled(false)), binds);
  }
}
