/** The offering side of `ConfigurationManagerImpl`: the factory registry filled at start-up,
    the factory lookups, the pass-through of offering messages with its soft-deletion fallback,
    and the records the two create handlers build. */
module Offerings {
  import opened Wrappers
  import opened Text

  /** A plugin factory as the registry sees it: its class name and the offering type it serves
      (`getInstanceOfferingType().toString()` or `getDiskOfferingType().toString()`). */
  datatype Factory = Factory(className: string, offeringType: string)

  /** A `PythonApiBindingWriter` extension; only its identity matters here. */
  datatype BindingWriter = BindingWriter(className: string)

  /** The registration loop over one extension list: the map it has filled and, if it stopped
      on a duplicate type, the message of the exception it threw. */
  datatype Registration = Registration(factories: map<string, Factory>, error: Option<string>)

  /** `duplicate <kind>[<new class>, <old class>] for type[<type>]`. */
  function DuplicateMessage(kind: string, f: Factory, filed: Factory): string {
    "duplicate " + kind + "[" + f.className + ", " + filed.className + "] for type[" + f.offeringType + "]"
  }

  /** The loop of `populateExtensions` over one extension list, starting from `m`: each factory
      is filed under its type unless the type is taken, which stops the loop. */
  function Register(m: map<string, Factory>, exts: seq<Factory>, kind: string): Registration {
    if exts == [] then Registration(m, None)
    else
      var prev, f := Register(m, exts[..|exts| - 1], kind), exts[|exts| - 1];
      if prev.error.Some? then prev
      else if f.offeringType in prev.factories then Registration(prev.factories, Some(DuplicateMessage(kind, f, prev.factories[f.offeringType])))
      else Registration(prev.factories[f.offeringType := f], None)
  }

  /** The types of some factories, in order. */
  function Types(exts: seq<Factory>): (r: seq<string>)
    ensures |r| == |exts| && forall i :: 0 <= i < |exts| ==> r[i] == exts[i].offeringType
  {
    if exts == [] then [] else Types(exts[..|exts| - 1]) + [exts[|exts| - 1].offeringType]
  }

  /** No two of the factories share a type, and none takes a type already filed in `m`. */
  ghost predicate Unfiled(m: map<string, Factory>, exts: seq<Factory>) {
    NoDup(Types(exts)) && forall t :: t in Types(exts) ==> t !in m
  }

  lemma UnfiledSnoc(m: map<string, Factory>, p: seq<Factory>, f: Factory)
    ensures Types(p + [f]) == Types(p) + [f.offeringType]
    ensures Unfiled(m, p + [f]) <==> Unfiled(m, p) && f.offeringType !in m && f.offeringType !in Types(p)
  {
    assert (p + [f])[..|p|] == p;
    var ts := Types(p + [f]);
    if Unfiled(m, p + [f]) {
      assert NoDup(Types(p)) by {
        forall i, j | 0 <= i < j < |p| ensures Types(p)[i] != Types(p)[j] {
          assert ts[i] == Types(p)[i] && ts[j] == Types(p)[j];
        }
      }
    }
  }

  /** With no type taken twice or already filed, registration goes through: every type of
      `m` and of the factories is filed, each factory under its own type, and what `m` held is
      kept. */
  lemma {:induction false} RegisterContents(m: map<string, Factory>, exts: seq<Factory>, kind: string)
    requires Unfiled(m, exts)
    ensures Register(m, exts, kind).error.None?
    ensures var r := Register(m, exts, kind).factories;
      (forall t :: t in r <==> t in m || t in Types(exts)) &&
      (forall t :: t in m ==> r[t] == m[t]) &&
      (forall i :: 0 <= i < |exts| ==> r[exts[i].offeringType] == exts[i])
  {
    if exts != [] {
      var k := |exts| - 1;
      var p, f := exts[..k], exts[k];
      assert exts == p + [f];
      UnfiledSnoc(m, p, f);
      RegisterContents(m, p, kind);
      var r := Register(m, exts, kind).factories;
      forall i | 0 <= i < k ensures r[exts[i].offeringType] == exts[i] {
        assert p[i] == exts[i];
        assert Types(p)[i] == exts[i].offeringType;
      }
    }
  }

  /** Registration fails exactly when two factories share a type or one takes a type already
      filed. */
  lemma {:induction false} RegisterSucceedsIff(m: map<string, Factory>, exts: seq<Factory>, kind: string)
    ensures Register(m, exts, kind).error.None? <==> Unfiled(m, exts)
  {
    if Unfiled(m, exts) {
      RegisterContents(m, exts, kind);
    } else if exts != [] {
      var k := |exts| - 1;
      var p, f := exts[..k], exts[k];
      assert exts == p + [f];
      RegisterSucceedsIff(m, p, kind);
      UnfiledSnoc(m, p, f);
      if Unfiled(m, p) {
        RegisterContents(m, p, kind);
      }
    }
  }

  /** After a registration that went through, every factory is filed under its own type. */
  lemma RegisterFilesEach(m: map<string, Factory>, exts: seq<Factory>, kind: string, i: nat)
    requires Register(m, exts, kind).error.None? && i < |exts|
    ensures exts[i].offeringType in Register(m, exts, kind).factories
    ensures Register(m, exts, kind).factories[exts[i].offeringType] == exts[i]
  {
    RegisterSucceedsIff(m, exts, kind);
    RegisterContents(m, exts, kind);
    assert Types(exts)[i] in Types(exts);
  }

  /** On a duplicate the exception names the newer factory, the one already filed for its
      type, and that type. */
  lemma {:induction false} RegisterDuplicateMessage(exts: seq<Factory>, kind: string)
    requires Register(map[], exts, kind).error.Some?
    ensures exists i, j :: 0 <= i < j < |exts| && exts[i].offeringType == exts[j].offeringType &&
                           Register(map[], exts, kind).error == Some(DuplicateMessage(kind, exts[j], exts[i]))
  {
    var k := |exts| - 1;
    var p := exts[..k];
    var prev := Register(map[], p, kind);
    if prev.error.Some? {
      RegisterDuplicateMessage(p, kind);
      var i, j :| 0 <= i < j < |p| && p[i].offeringType == p[j].offeringType &&
        prev.error == Some(DuplicateMessage(kind, p[j], p[i]));
      assert exts[i] == p[i] && exts[j] == p[j];
    } else {
      RegisterSucceedsIff(map[], p, kind);
      RegisterContents(map[], p, kind);
      var t := exts[k].offeringType;
      var i :| 0 <= i < k && Types(p)[i] == t;
      RegisterFilesEach(map[], p, kind, i);
      assert prev.factories[t] == p[i] == exts[i];
    }
  }

  /** `getInstanceOfferingFactory`: a missing type is an `IllegalArgumentException`. */
  function GetInstanceOfferingFactory(factories: map<string, Factory>, offeringType: string): (r: Result<Factory>)
    ensures r.Success? <==> offeringType in factories
    ensures r.Success? ==> r.value == factories[offeringType]
    ensures r.Failure? ==> r.error == "unable to find InstanceOfferingFactory with type[" + offeringType + "]"
  {
    if offeringType in factories then Success(factories[offeringType])
    else Failure("unable to find InstanceOfferingFactory with type[" + offeringType + "]")
  }

  /** `getDiskOfferingFactory`. */
  function GetDiskOfferingFactory(factories: map<string, Factory>, offeringType: string): (r: Result<Factory>)
    ensures r.Success? <==> offeringType in factories
    ensures r.Success? ==> r.value == factories[offeringType]
    ensures r.Failure? ==> r.error == "unable to find DiskOfferingFactory with type[" + offeringType + "]"
  {
    if offeringType in factories then Success(factories[offeringType])
    else Failure("unable to find DiskOfferingFactory with type[" + offeringType + "]")
  }

  /** After a successful start-up from empty maps, a lookup finds exactly the registered types,
      each served by the one factory registered for it. */
  lemma LookupAfterRegistration(exts: seq<Factory>, i: nat, t: string)
    requires Register(map[], exts, "InstanceOfferingFactory").error.None? && i < |exts|
    ensures GetInstanceOfferingFactory(Register(map[], exts, "InstanceOfferingFactory").factories, exts[i].offeringType) == Success(exts[i])
    ensures GetInstanceOfferingFactory(Register(map[], exts, "InstanceOfferingFactory").factories, t).Success? <==> t in Types(exts)
  {
    RegisterFilesEach(map[], exts, "InstanceOfferingFactory", i);
    RegisterSucceedsIff(map[], exts, "InstanceOfferingFactory");
    RegisterContents(map[], exts, "InstanceOfferingFactory");
  }

  /** The factory maps and the writer list. */
  class OfferingRegistry {
    var instanceFactories: map<string, Factory>
    var diskFactories: map<string, Factory>
    var writers: seq<BindingWriter>

    constructor ()
      ensures instanceFactories == map[] && diskFactories == map[] && writers == []
    {
      instanceFactories, diskFactories, writers := map[], map[], [];
    }

    /** `populateExtensions`: the instance factories, then the disk factories, then the writers;
        a duplicate type throws and leaves the rest unregistered. */
    method PopulateExtensions(instanceExts: seq<Factory>, diskExts: seq<Factory>, writerExts: seq<BindingWriter>)
      returns (error: Option<string>)
      modifies this
      ensures var ri := Register(old(instanceFactories), instanceExts, "InstanceOfferingFactory");
        var rd := Register(old(diskFactories), diskExts, "DiskOfferingFactory");
        instanceFactories == ri.factories &&
        (ri.error.Some? ==> error == ri.error && diskFactories == old(diskFactories) && writers == old(writers)) &&
        (ri.error.None? ==> diskFactories == rd.factories && error == rd.error &&
                            writers == old(writers) + (if rd.error.None? then writerExts else []))
    {
      error := RegisterAll(this, instanceExts, true);
      if error.Some? {
        return;
      }
      error := RegisterAll(this, diskExts, false);
      if error.Some? {
        return;
      }
      var i := 0;
      while i < |writerExts|
        invariant 0 <= i <= |writerExts|
        invariant writers == old(writers) + writerExts[..i]
        invariant instanceFactories == Register(old(instanceFactories), instanceExts, "InstanceOfferingFactory").factories
        invariant diskFactories == Register(old(diskFactories), diskExts, "DiskOfferingFactory").factories
      {
        writers := writers + [writerExts[i]];
        assert writerExts[..i + 1] == writerExts[..i] + [writerExts[i]];
        i := i + 1;
      }
      assert writerExts[..i] == writerExts;
    }
  }

  /** One registration loop, on the instance map (`instance`) or the disk map. */
  method RegisterAll(r: OfferingRegistry, exts: seq<Factory>, instance: bool) returns (error: Option<string>)
    modifies r
    ensures var kind := if instance then "InstanceOfferingFactory" else "DiskOfferingFactory";
      var reg := Register(if instance then old(r.instanceFactories) else old(r.diskFactories), exts, kind);
      error == reg.error && r.writers == old(r.writers) &&
      (if instance then r.instanceFactories == reg.factories && r.diskFactories == old(r.diskFactories)
       else r.diskFactories == reg.factories && r.instanceFactories == old(r.instanceFactories))
  {
    var kind := if instance then "InstanceOfferingFactory" else "DiskOfferingFactory";
    var m := if instance then r.instanceFactories else r.diskFactories;
    ghost var start := m;
    var i := 0;
    error := None;
    while i < |exts|
      invariant 0 <= i <= |exts|
      invariant Register(start, exts[..i], kind) == Registration(m, None)
    {
      assert exts[..i + 1][..i] == exts[..i];
      var f := exts[i];
      if f.offeringType in m {
        error := Some(DuplicateMessage(kind, f, m[f.offeringType]));
        FailureStays(start, exts, i + 1, kind);
        break;
      }
      m := m[f.offeringType := f];
      i := i + 1;
    }
    if error.None? {
      assert exts[..i] == exts;
    }
    if instance {
      r.instanceFactories := m;
    } else {
      r.diskFactories := m;
    }
  }

  /** Once the loop has thrown, the later factories change nothing. */
  lemma {:induction false} FailureStays(m: map<string, Factory>, exts: seq<Factory>, k: nat, kind: string)
    requires 0 < k <= |exts| && Register(m, exts[..k], kind).error.Some?
    ensures Register(m, exts, kind) == Register(m, exts[..k], kind)
    decreases |exts| - k
  {
    if k < |exts| {
      assert exts[..k + 1][..k] == exts[..k];
      FailureStays(m, exts, k + 1, kind);
    } else {
      assert exts[..k] == exts;
    }
  }

  // ---- the pass-through ------------------------------------------------------------------

  const InstanceOfferingDeletionMsg := "org.zstack.header.configuration.InstanceOfferingDeletionMsg"
  const DiskOfferingDeletionMsg := "org.zstack.header.configuration.DiskOfferingDeletionMsg"

  /** `allowedInstanceOfferingMessageAfterSoftDeletion` and its disk counterpart: the message
      classes that may still reach a soft-deleted offering. */
  const AllowedInstanceAfterSoftDeletion: set<string> := {InstanceOfferingDeletionMsg}
  const AllowedDiskAfterSoftDeletion: set<string> := {DiskOfferingDeletionMsg}

  /** An offering row: the fields the pass-through reads. */
  datatype OfferingRow = OfferingRow(uuid: string, offeringType: string)

  /** The database as the pass-through sees it: the live rows (the VO view, which hides
      soft-deleted rows) and all rows (the EO table), both keyed by uuid. */
  datatype OfferingTables = OfferingTables(vo: map<string, OfferingRow>, eo: map<string, OfferingRow>)

  /** A message aimed at one offering: its class and the offering's uuid. */
  datatype OfferingMessage = OfferingMessage(messageClass: string, offeringUuid: string)

  /** What the pass-through does with a message: hands it to the offering built by the factory
      of its type, replies with an error, or throws from the factory lookup. */
  datatype Outcome =
    | Handled(factory: Factory, row: OfferingRow)
    | ErrorReply(message: string)
    | LookupThrows(message: string)

  function InstanceNotFound(uuid: string): string {
    "cannot find InstanceOffering[uuid:" + uuid + "], it may have been deleted"
  }

  function DiskNotFound(uuid: string): string {
    "cannot find DiskOffering[uuid:" + uuid + "], it may have been deleted"
  }

  /** The row the pass-through works on: the live one, else, for a message class allowed after
      soft deletion, the EO row. */
  function FindRow(db: OfferingTables, msg: OfferingMessage, allowed: set<string>): Option<OfferingRow> {
    if msg.offeringUuid in db.vo then Some(db.vo[msg.offeringUuid])
    else if msg.messageClass in allowed && msg.offeringUuid in db.eo then Some(db.eo[msg.offeringUuid])
    else None
  }

  /** No row exactly when the offering is neither live nor reachable through the fallback; a
      live row wins over the EO row. */
  lemma FindRowCases(db: OfferingTables, msg: OfferingMessage, allowed: set<string>)
    ensures var r, u := FindRow(db, msg, allowed), msg.offeringUuid;
      (r.None? <==> u !in db.vo && (msg.messageClass !in allowed || u !in db.eo)) &&
      (r.Some? ==> r.value == if u in db.vo then db.vo[u] else db.eo[u])
  {
  }

  /** `instanceOfferingPassThrough`. */
  function InstanceOfferingPassThrough(db: OfferingTables, factories: map<string, Factory>, msg: OfferingMessage): Outcome {
    match FindRow(db, msg, AllowedInstanceAfterSoftDeletion)
    case None => ErrorReply(InstanceNotFound(msg.offeringUuid))
    case Some(row) =>
      match GetInstanceOfferingFactory(factories, row.offeringType)
      case Failure(e) => LookupThrows(e)
      case Success(f) => Handled(f, row)
  }

  /** `diskOfferingPassThrough` as written: its fallback tests the INSTANCE-offering set. */
  function DiskOfferingPassThroughAsWritten(db: OfferingTables, factories: map<string, Factory>, msg: OfferingMessage): Outcome {
    match FindRow(db, msg, AllowedInstanceAfterSoftDeletion)
    case None => ErrorReply(DiskNotFound(msg.offeringUuid))
    case Some(row) =>
      match GetDiskOfferingFactory(factories, row.offeringType)
      case Failure(e) => LookupThrows(e)
      case Success(f) => Handled(f, row)
  }

  /** `diskOfferingPassThrough` with the fallback testing the disk-offering set. */
  function DiskOfferingPassThrough(db: OfferingTables, factories: map<string, Factory>, msg: OfferingMessage): Outcome {
    match FindRow(db, msg, AllowedDiskAfterSoftDeletion)
    case None => ErrorReply(DiskNotFound(msg.offeringUuid))
    case Some(row) =>
      match GetDiskOfferingFactory(factories, row.offeringType)
      case Failure(e) => LookupThrows(e)
      case Success(f) => Handled(f, row)
  }

  /** A live offering is always served; a soft-deleted one only to a deletion message of its own
      kind; an error reply means neither applied. */
  lemma InstancePassThroughCases(db: OfferingTables, factories: map<string, Factory>, msg: OfferingMessage)
    ensures var out, u := InstanceOfferingPassThrough(db, factories, msg), msg.offeringUuid;
      (out.ErrorReply? <==> u !in db.vo && (msg.messageClass != InstanceOfferingDeletionMsg || u !in db.eo)) &&
      (out.ErrorReply? ==> out.message == InstanceNotFound(u)) &&
      (out.Handled? ==> out.row == (if u in db.vo then db.vo[u] else db.eo[u]) && out.factory == factories[out.row.offeringType]) &&
      (out.LookupThrows? <==> !out.ErrorReply? && FindRow(db, msg, AllowedInstanceAfterSoftDeletion).value.offeringType !in factories)
  {
    FindRowCases(db, msg, AllowedInstanceAfterSoftDeletion);
  }

  lemma DiskPassThroughCases(db: OfferingTables, factories: map<string, Factory>, msg: OfferingMessage)
    ensures var out, u := DiskOfferingPassThrough(db, factories, msg), msg.offeringUuid;
      (out.ErrorReply? <==> u !in db.vo && (msg.messageClass != DiskOfferingDeletionMsg || u !in db.eo)) &&
      (out.ErrorReply? ==> out.message == DiskNotFound(u)) &&
      (out.Handled? ==> out.row == (if u in db.vo then db.vo[u] else db.eo[u]) && out.factory == factories[out.row.offeringType]) &&
      (out.LookupThrows? <==> !out.ErrorReply? && FindRow(db, msg, AllowedDiskAfterSoftDeletion).value.offeringType !in factories)
  {
    FindRowCases(db, msg, AllowedDiskAfterSoftDeletion);
  }

  /** As written, a `DiskOfferingDeletionMsg` for a soft-deleted disk offering gets the
      "cannot find" reply, where the corrected pass-through hands it to the offering. */
  lemma DiskSoftDeletionFallbackNeverFires()
    ensures var row := OfferingRow("d1", "DefaultDiskOfferingType");
      var db := OfferingTables(map[], map["d1" := row]);
      var factories := map["DefaultDiskOfferingType" := Factory("DefaultDiskOfferingFactory", "DefaultDiskOfferingType")];
      var msg := OfferingMessage(DiskOfferingDeletionMsg, "d1");
      DiskOfferingPassThroughAsWritten(db, factories, msg) == ErrorReply(DiskNotFound("d1")) &&
      DiskOfferingPassThrough(db, factories, msg) == Handled(factories["DefaultDiskOfferingType"], row)
  {
    assert DiskOfferingDeletionMsg != InstanceOfferingDeletionMsg;
  }

  /** In general, as written a disk-offering message other than an instance-offering deletion
      message (no disk-offering message is one) never reaches a soft-deleted offering. */
  lemma DiskAsWrittenIgnoresEo(db: OfferingTables, factories: map<string, Factory>, msg: OfferingMessage)
    requires msg.messageClass != InstanceOfferingDeletionMsg
    ensures DiskOfferingPassThroughAsWritten(db, factories, msg) ==
      DiskOfferingPassThroughAsWritten(OfferingTables(db.vo, map[]), factories, msg)
  {
  }

  // ---- the create handlers ---------------------------------------------------------------

  /** The defaults the create handlers fall back on; their values live in classes that are
      not part of this model. */
  datatype Defaults = Defaults(
    instanceOfferingType: string,     // UserVmInstanceOfferingFactory.type
    hostAllocatorStrategy: string,    // HostAllocatorConstant.DEFAULT_HOST_ALLOCATOR_STRATEGY_TYPE
    diskOfferingType: string,         // DefaultDiskOfferingFactory.type
    primaryStorageAllocator: string)  // PrimaryStorageConstant.DEFAULT_PRIMARY_STORAGE_ALLOCATION_STRATEGY_TYPE

  const Enabled := "Enabled"
  const Permanent := "Permanent"

  datatype CreateInstanceOfferingMsg = CreateInstanceOfferingMsg(
    resourceUuid: Option<string>, name: string, description: string,
    cpuNum: int, cpuSpeed: int, memorySize: int,
    allocatorStrategy: Option<string>, offeringType: Option<string>)

  datatype InstanceOfferingVO = InstanceOfferingVO(
    uuid: string, name: string, description: string,
    cpuNum: int, cpuSpeed: int, memorySize: int,
    allocatorStrategy: string, state: string, duration: string, offeringType: string)

  /** What `handle(APICreateInstanceOfferingMsg)` passes to `createInstanceOffering`: the factory
      of the type (looked up first, so an unknown type throws before anything is built) and the
      new record; `freshUuid` stands for `Platform.getUuid()`. */
  function CreateInstanceOffering(factories: map<string, Factory>, d: Defaults, msg: CreateInstanceOfferingMsg, freshUuid: string)
    : (r: Result<(Factory, InstanceOfferingVO)>)
  {
    var t := msg.offeringType.GetOr(d.instanceOfferingType);
    match GetInstanceOfferingFactory(factories, t)
    case Failure(e) => Failure(e)
    case Success(f) =>
      Success((f, InstanceOfferingVO(msg.resourceUuid.GetOr(freshUuid), msg.name, msg.description,
        msg.cpuNum, msg.cpuSpeed, msg.memorySize,
        msg.allocatorStrategy.GetOr(d.hostAllocatorStrategy), Enabled, Permanent, t)))
  }

  /** The record copies the message, is enabled and permanent, and takes the caller's uuid, type
      and allocator when given and the defaults otherwise; it fails exactly when the type has
      no factory. */
  lemma CreateInstanceOfferingFacts(factories: map<string, Factory>, d: Defaults, msg: CreateInstanceOfferingMsg, freshUuid: string)
    ensures var r, t := CreateInstanceOffering(factories, d, msg, freshUuid), msg.offeringType.GetOr(d.instanceOfferingType);
      (r.Failure? <==> t !in factories) &&
      (r.Failure? ==> r.error == "unable to find InstanceOfferingFactory with type[" + t + "]") &&
      (r.Success? ==> var (f, vo) := r.value;
         f == factories[t] && vo.offeringType == t &&
         (msg.offeringType.None? ==> vo.offeringType == d.instanceOfferingType) &&
         (msg.resourceUuid.Some? ==> vo.uuid == msg.resourceUuid.value) &&
         (msg.resourceUuid.None? ==> vo.uuid == freshUuid) &&
         (msg.allocatorStrategy.Some? ==> vo.allocatorStrategy == msg.allocatorStrategy.value) &&
         (msg.allocatorStrategy.None? ==> vo.allocatorStrategy == d.hostAllocatorStrategy) &&
         vo.state == Enabled && vo.duration == Permanent &&
         vo.name == msg.name && vo.description == msg.description &&
         vo.cpuNum == msg.cpuNum && vo.cpuSpeed == msg.cpuSpeed && vo.memorySize == msg.memorySize)
  {
  }

  datatype CreateDiskOfferingMsg = CreateDiskOfferingMsg(
    resourceUuid: Option<string>, name: string, description: string,
    diskSize: int, sortKey: int,
    allocationStrategy: Option<string>, offeringType: Option<string>)

  datatype DiskOfferingVO = DiskOfferingVO(
    uuid: string, name: string, description: string, diskSize: int, sortKey: int,
    state: string, allocatorStrategy: string, offeringType: string)

  /** The record `handle(APICreateDiskOfferingMsg)` builds before it looks the factory up. */
  function DiskOfferingRecord(d: Defaults, msg: CreateDiskOfferingMsg, freshUuid: string): DiskOfferingVO {
    DiskOfferingVO(msg.resourceUuid.GetOr(freshUuid), msg.name, msg.description, msg.diskSize, msg.sortKey,
      Enabled, msg.allocationStrategy.GetOr(d.primaryStorageAllocator), msg.offeringType.GetOr(d.diskOfferingType))
  }

  /** `handle(APICreateDiskOfferingMsg)`: the record, then the factory of its type. */
  function CreateDiskOffering(factories: map<string, Factory>, d: Defaults, msg: CreateDiskOfferingMsg, freshUuid: string)
    : (r: Result<(Factory, DiskOfferingVO)>)
  {
    var vo := DiskOfferingRecord(d, msg, freshUuid);
    match GetDiskOfferingFactory(factories, vo.offeringType)
    case Failure(e) => Failure(e)
    case Success(f) => Success((f, vo))
  }

  lemma CreateDiskOfferingFacts(factories: map<string, Factory>, d: Defaults, msg: CreateDiskOfferingMsg, freshUuid: string)
    ensures var r, t := CreateDiskOffering(factories, d, msg, freshUuid), msg.offeringType.GetOr(d.diskOfferingType);
      (r.Failure? <==> t !in factories) &&
      (r.Failure? ==> r.error == "unable to find DiskOfferingFactory with type[" + t + "]") &&
      (r.Success? ==> var (f, vo) := r.value;
         f == factories[t] && vo.offeringType == t &&
         (msg.offeringType.None? ==> vo.offeringType == d.diskOfferingType) &&
         (msg.resourceUuid.Some? ==> vo.uuid == msg.resourceUuid.value) &&
         (msg.resourceUuid.None? ==> vo.uuid == freshUuid) &&
         (msg.allocationStrategy.Some? ==> vo.allocatorStrategy == msg.allocationStrategy.value) &&
         (msg.allocationStrategy.None? ==> vo.allocatorStrategy == d.primaryStorageAllocator) &&
         vo.state == Enabled && vo.name == msg.name && vo.description == msg.description &&
         vo.diskSize == msg.diskSize && vo.sortKey == msg.sortKey)
  {
  }
}
