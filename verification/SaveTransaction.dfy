/** save_transaction and load_or_empty over a disk on which anything but a rename may be cut short. */
module SaveTransaction {
  import opened Prelude
  import opened Config
  import opened Storage

  /** The contents of the file, of its temporary copy and of its backup. */
  datatype Disk = Disk(main: Option<seq<byte>>, tmp: Option<seq<byte>>, bak: Option<seq<byte>>)

  /** Serialization, by a library that reads what it wrote. */
  datatype Serde = Serde(encode: HttpServerFile -> seq<byte>, decode: seq<byte> -> Option<HttpServerFile>) {
    ghost predicate RoundTrips() {
      forall data :: Decode(Encode(data)) == Some(data)
    }

    function Encode(data: HttpServerFile): seq<byte> {
      encode(data)
    }

    function Decode(content: seq<byte>): Option<HttpServerFile> {
      decode(content)
    }
  }

  /** How far a save has come. */
  datatype Phase =
    | Idle
    | Begun(data: HttpServerFile)
    | TmpWritten(data: HttpServerFile)
    | TmpRead(data: HttpServerFile)
    | BackedUp(data: HttpServerFile)

  datatype State = State(disk: Disk, phase: Phase)

  /** The steps of saves: a write or a copy that is cut short leaves anything in its file, an error
      or the death of the process ends a save wherever it is, and a rename happens or does not. */
  datatype Step =
    | Begin(data: HttpServerFile)
    | WriteTmp
    | WriteTmpInPart(content: seq<byte>)
    | ReadTmp
    | CopyToBak
    | CopyToBakInPart(content: seq<byte>)
    | NothingToCopy
    | Rename
    | Stop

  predicate Enabled(serde: Serde, s: State, step: Step) {
    match step
    case Begin(data) => s.phase.Idle? && ValidFile(data)
    case WriteTmp => s.phase.Begun?
    case WriteTmpInPart(_) => s.phase.Begun?
    case ReadTmp => s.phase.TmpWritten? && s.disk.tmp.Some? && serde.Decode(s.disk.tmp.value).Some?
    case CopyToBak => s.phase.TmpRead? && s.disk.main.Some?
    case CopyToBakInPart(_) => s.phase.TmpRead? && s.disk.main.Some?
    case NothingToCopy => s.phase.TmpRead? && s.disk.main.None?
    case Rename => s.phase.BackedUp? && s.disk.tmp.Some?
    case Stop => true
  }

  function Next(serde: Serde, s: State, step: Step): State
    requires Enabled(serde, s, step)
  {
    match step
    case Begin(data) => s.(phase := Begun(data))
    case WriteTmp =>
      State(s.disk.(tmp := Some(serde.Encode(s.phase.data))), TmpWritten(s.phase.data))
    case WriteTmpInPart(content) => State(s.disk.(tmp := Some(content)), Idle)
    case ReadTmp => s.(phase := TmpRead(s.phase.data))
    case CopyToBak => State(s.disk.(bak := s.disk.main), BackedUp(s.phase.data))
    case CopyToBakInPart(content) => State(s.disk.(bak := Some(content)), Idle)
    case NothingToCopy => s.(phase := BackedUp(s.phase.data))
    case Rename => State(s.disk.(main := s.disk.tmp, tmp := None), Idle)
    case Stop => s.(phase := Idle)
  }

  predicate Run(serde: Serde, s: State, steps: seq<Step>)
    decreases |steps|
  {
    steps == [] || (Enabled(serde, s, steps[0]) && Run(serde, Next(serde, s, steps[0]), steps[1..]))
  }

  function Final(serde: Serde, s: State, steps: seq<Step>): State
    requires Run(serde, s, steps)
    decreases |steps|
  {
    if steps == [] then s else Final(serde, Next(serde, s, steps[0]), steps[1..])
  }

  /** load_or_empty: None for a file that cannot be loaded. */
  function Load(serde: Serde, main: Option<seq<byte>>): Option<HttpServerFile> {
    match main
    case None => Some(HttpServerFile(1, []))
    case Some(content) =>
      match serde.Decode(content)
      case None => None
      case Some(data) => if ValidFile(data) then Some(data) else None
  }

  /** What the main file holds after a run: the data of the last save that came to its rename. */
  function Committed(serde: Serde, s: State, steps: seq<Step>, last: HttpServerFile): HttpServerFile
    requires Run(serde, s, steps)
    decreases |steps|
  {
    if steps == [] then last
    else Committed(serde, Next(serde, s, steps[0]), steps[1..],
                   if steps[0].Rename? then s.phase.data else last)
  }

  /** From the second write on, the temporary file is complete. */
  predicate Consistent(serde: Serde, s: State) {
    match s.phase
    case Idle => true
    case Begun(data) => ValidFile(data)
    case TmpWritten(data) => ValidFile(data) && s.disk.tmp == Some(serde.Encode(data))
    case TmpRead(data) => ValidFile(data) && s.disk.tmp == Some(serde.Encode(data))
    case BackedUp(data) => ValidFile(data) && s.disk.tmp == Some(serde.Encode(data))
  }

  lemma StepIsSafe(serde: Serde, s: State, step: Step, last: HttpServerFile)
    requires serde.RoundTrips() && Enabled(serde, s, step) && Consistent(serde, s)
    requires Load(serde, s.disk.main) == Some(last)
    ensures Consistent(serde, Next(serde, s, step))
    ensures Load(serde, Next(serde, s, step).disk.main) == Some(if step.Rename? then s.phase.data else last)
    ensures !step.Rename? ==> Next(serde, s, step).disk.main == s.disk.main
  {
    if step.Rename? {
      assert serde.Decode(serde.Encode(s.phase.data)) == Some(s.phase.data);
    }
  }

  /** Whenever the process dies, the file can be loaded, and is the complete one of the last save
      that was renamed into place, or the one there was before. */
  lemma {:induction false} RunIsSafe(serde: Serde, s: State, steps: seq<Step>, last: HttpServerFile)
    requires serde.RoundTrips() && Run(serde, s, steps) && Consistent(serde, s)
    requires Load(serde, s.disk.main) == Some(last)
    ensures Consistent(serde, Final(serde, s, steps))
    ensures Load(serde, Final(serde, s, steps).disk.main) == Some(Committed(serde, s, steps, last))
    ensures ValidFile(Committed(serde, s, steps, last))
    decreases |steps|
  {
    if steps != [] {
      StepIsSafe(serde, s, steps[0], last);
      RunIsSafe(serde, Next(serde, s, steps[0]), steps[1..], if steps[0].Rename? then s.phase.data else last);
    }
  }

  // ----- One save

  predicate NoBegin(steps: seq<Step>) {
    steps == [] || (!steps[0].Begin? && NoBegin(steps[1..]))
  }

  /** The steps of one save of `data`, as far as it came. */
  predicate SavesOnly(steps: seq<Step>, data: HttpServerFile) {
    steps == [] || (steps[0] == Begin(data) && NoBegin(steps[1..]))
  }

  predicate Renames(steps: seq<Step>) {
    steps != [] && (steps[0].Rename? || Renames(steps[1..]))
  }

  lemma {:induction false} RestCommits(serde: Serde, s: State, steps: seq<Step>, data: HttpServerFile,
                                       last: HttpServerFile)
    requires Run(serde, s, steps) && NoBegin(steps) && (s.phase.Idle? || s.phase.data == data)
    ensures Committed(serde, s, steps, last) == if Renames(steps) then data else last
    decreases |steps|
  {
    if steps != [] {
      RestCommits(serde, Next(serde, s, steps[0]), steps[1..], data, if steps[0].Rename? then data else last);
    }
  }

  /** Wherever one save ends, the file is that of the save if its rename happened, and otherwise
      what it was. */
  lemma {:induction false} OneSaveCommits(serde: Serde, disk: Disk, steps: seq<Step>, data: HttpServerFile,
                                          last: HttpServerFile)
    requires serde.RoundTrips() && Load(serde, disk.main) == Some(last)
    requires SavesOnly(steps, data) && Run(serde, State(disk, Idle), steps)
    ensures Load(serde, Final(serde, State(disk, Idle), steps).disk.main) ==
            Some(if Renames(steps) then data else last)
  {
    RunIsSafe(serde, State(disk, Idle), steps, last);
    if steps != [] {
      RestCommits(serde, Next(serde, State(disk, Idle), steps[0]), steps[1..], data, last);
    }
  }

  lemma {:induction false} NothingFollows(serde: Serde, s: State, steps: seq<Step>)
    requires Run(serde, s, steps) && NoBegin(steps) && s.phase.Idle?
    ensures Final(serde, s, steps).disk == s.disk && !Renames(steps)
    decreases |steps|
  {
    if steps != [] {
      assert Next(serde, s, steps[0]) == s;
      NothingFollows(serde, s, steps[1..]);
    }
  }

  /** The backup made in a save is the file as it was. */
  predicate BacksUp(s: State, former: Option<seq<byte>>) {
    s.disk.main == former && (s.phase.BackedUp? && former.Some? ==> s.disk.bak == former)
  }

  lemma {:induction false} RestBacksUp(serde: Serde, s: State, steps: seq<Step>, former: Option<seq<byte>>)
    requires Run(serde, s, steps) && NoBegin(steps) && !s.phase.Idle? && BacksUp(s, former)
    ensures Renames(steps) && former.Some? ==> Final(serde, s, steps).disk.bak == former
    ensures Renames(steps) ==> Final(serde, s, steps).disk.tmp == None
    decreases |steps|
  {
    if steps != [] {
      var next := Next(serde, s, steps[0]);
      if next.phase.Idle? {
        NothingFollows(serde, next, steps[1..]);
      } else {
        RestBacksUp(serde, next, steps[1..], former);
      }
    }
  }

  /** A save that came to its rename leaves the former file as the backup, and no temporary file. */
  lemma {:induction false} OneSaveBacksUp(serde: Serde, disk: Disk, steps: seq<Step>, data: HttpServerFile)
    requires SavesOnly(steps, data) && Run(serde, State(disk, Idle), steps) && Renames(steps)
    ensures var after := Final(serde, State(disk, Idle), steps).disk;
            (disk.main.Some? ==> after.bak == disk.main) && after.tmp == None
  {
    RestBacksUp(serde, Next(serde, State(disk, Idle), steps[0]), steps[1..], disk.main);
  }

  // ----- The program

  /** A disk whose writes and copies may fail halfway. */
  class FileSystem {
    var disk: Disk

    method WriteTmp(content: seq<byte>) returns (ok: bool)
      modifies this
      ensures ok ==> disk == old(disk).(tmp := Some(content))
      ensures !ok ==> disk.tmp.Some? && disk == old(disk).(tmp := disk.tmp)
    {
      ok := *;
      var written := content;
      if !ok {
        written := *;
      }
      disk := disk.(tmp := Some(written));
    }

    method CopyToBak() returns (ok: bool)
      requires disk.main.Some?
      modifies this
      ensures ok ==> disk == old(disk).(bak := old(disk).main)
      ensures !ok ==> disk.bak.Some? && disk == old(disk).(bak := disk.bak)
    {
      ok := *;
      var written := disk.main.value;
      if !ok {
        written := *;
      }
      disk := disk.(bak := Some(written));
    }

    method RenameTmp() returns (ok: bool)
      requires disk.tmp.Some?
      modifies this
      ensures disk == if ok then old(disk).(main := old(disk).tmp, tmp := None) else old(disk)
    {
      ok := *;
      if ok {
        disk := disk.(main := disk.tmp, tmp := None);
      }
    }
  }

  lemma OneStep(serde: Serde, s: State, step: Step, rest: seq<Step>)
    requires Enabled(serde, s, step) && Run(serde, Next(serde, s, step), rest)
    ensures Run(serde, s, [step] + rest)
    ensures Final(serde, s, [step] + rest) == Final(serde, Next(serde, s, step), rest)
    ensures NoBegin([step] + rest) <==> !step.Begin? && NoBegin(rest)
    ensures Renames([step] + rest) <==> step.Rename? || Renames(rest)
    ensures ([step] + rest)[0] == step && ([step] + rest)[1..] == rest
  {
    assert ([step] + rest)[1..] == rest;
  }

  /** The backup and the rename. */
  method Commit(serde: Serde, fs: FileSystem, data: HttpServerFile) returns (ok: bool, ghost steps: seq<Step>)
    requires fs.disk.tmp == Some(serde.Encode(data))
    modifies fs
    ensures Run(serde, State(old(fs.disk), TmpRead(data)), steps)
    ensures Final(serde, State(old(fs.disk), TmpRead(data)), steps) == State(fs.disk, Idle)
    ensures NoBegin(steps) && ok == Renames(steps)
    ensures fs.disk.main == if ok then Some(serde.Encode(data)) else old(fs.disk).main
  {
    ghost var s := State(fs.disk, TmpRead(data));
    ghost var backup := NothingToCopy;
    if fs.disk.main.Some? {
      ok := fs.CopyToBak();
      if !ok {
        OneStep(serde, s, CopyToBakInPart(fs.disk.bak.value), []);
        return false, [CopyToBakInPart(fs.disk.bak.value)] + [];
      }
      backup := CopyToBak;
    }
    ghost var backedUp := Next(serde, s, backup);
    ok := fs.RenameTmp();
    ghost var last := if ok then Rename else Stop;
    OneStep(serde, backedUp, last, []);
    OneStep(serde, s, backup, [last] + []);
    steps := [backup] + ([last] + []);
  }

  /** save_transaction is such a run; it succeeds exactly when the file is the new one. */
  method Save(serde: Serde, fs: FileSystem, data: HttpServerFile) returns (ok: bool, ghost steps: seq<Step>)
    requires serde.RoundTrips()
    modifies fs
    ensures !ValidFile(data) ==> !ok && fs.disk == old(fs.disk) && steps == []
    ensures ValidFile(data) ==> Run(serde, State(old(fs.disk), Idle), steps)
    ensures ValidFile(data) ==> Final(serde, State(old(fs.disk), Idle), steps) == State(fs.disk, Idle)
    ensures SavesOnly(steps, data) && ok == Renames(steps)
    ensures fs.disk.main == if ok then Some(serde.Encode(data)) else old(fs.disk).main
  {
    steps := [];
    var valid := ValidateLoadedFile(data);
    if !valid {
      return false, [];
    }
    ghost var s0 := State(fs.disk, Idle);
    ghost var s1 := Next(serde, s0, Begin(data));
    ok := fs.WriteTmp(serde.Encode(data));
    if !ok {
      ghost var cut := WriteTmpInPart(fs.disk.tmp.value);
      OneStep(serde, s1, cut, []);
      OneStep(serde, s0, Begin(data), [cut] + []);
      return false, [Begin(data)] + ([cut] + []);
    }
    ghost var s2 := Next(serde, s1, WriteTmp);
    ok := *;
    if !ok {
      // The temporary file cannot be read back.
      OneStep(serde, s2, Stop, []);
      OneStep(serde, s1, WriteTmp, [Stop] + []);
      OneStep(serde, s0, Begin(data), [WriteTmp] + ([Stop] + []));
      return false, [Begin(data)] + ([WriteTmp] + ([Stop] + []));
    }
    assert serde.Decode(serde.Encode(data)) == Some(data);
    ghost var s3 := Next(serde, s2, ReadTmp);
    ghost var rest;
    ok, rest := Commit(serde, fs, data);
    OneStep(serde, s2, ReadTmp, rest);
    OneStep(serde, s1, WriteTmp, [ReadTmp] + rest);
    OneStep(serde, s0, Begin(data), [WriteTmp] + ([ReadTmp] + rest));
    steps := [Begin(data)] + ([WriteTmp] + ([ReadTmp] + rest));
  }
}
