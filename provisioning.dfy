/** The provisioning sequence of `main` in efuse_control.c: after the options
    are parsed and `-f` is expanded, up to four steps run in a fixed order,
    each only when its bit is set: read the eFuse, erase it, write a UUID into
    it (unless it already holds a valid one) and print the MAC address on the
    label printer.

    The eFuse library, the MAC-allocation server client and the printer client
    are not modelled: what they return is an input (`Env`), and the model
    records, as a trace of events, which of them the program calls, with which
    arguments and in which order, and which confirmation line it prints. */
module Provisioning {
  import opened CString
  import opened EfuseOptions

  /** `MAC_SERVER_FACTORY` and `MAC_SERVER_DEVELOPER`. */
  datatype Endpoint = FactoryServer | DeveloperServer

  /** The steps of `main`, in program order. */
  datatype Phase = ReadPhase | ErasePhase | WritePhase | PrintPhase

  function Rank(p: Phase): nat
  {
    match p
    case ReadPhase => 0
    case ErasePhase => 1
    case WritePhase => 2
    case PrintPhase => 3
  }

  /** Where a written UUID came from, as the confirmation line names it. */
  datatype UuidSource = Explicit | FromServer(endpoint: Endpoint)

  /** A call into one of the libraries, or a confirmation line. */
  datatype Action =
    | EfuseRead                                           // efuse_control(.., EFUSE_READ)
    | EfuseErase                                          // efuse_control(.., EFUSE_ERASE)
    | EfuseWrite(uuid: string)                            // efuse_control(uuid, EFUSE_WRITE)
    | ValidCheck(uuid: string)                            // efuse_valid_check(uuid)
    | ServerRequest(endpoint: Endpoint, boardName: string) // mac_server_request(.., REQ_TYPE_UUID, ..)
    | GetMac                                              // efuse_get_mac
    | PrinterInit                                         // nlp_init
    | PrinterPrint                                        // nlp_printf(.., MSG_TYPE_MAC, ..)
    | ReportRead(uuid: string)                            // confirmation: UUID and MAC read
    | ReportErased                                        // confirmation: eFuse erased
    | ReportAlreadyWritten(uuid: string)                  // the eFuse already holds a valid UUID
    | ReportWritten(uuid: string, source: UuidSource)     // confirmation: UUID written, and from where
    | ReportPrinted                                       // confirmation: MAC label printed

  datatype Event = Event(phase: Phase, action: Action)

  /** What the libraries answer. Every call site in `main` runs at most once
      per invocation, so each has a field of its own. */
  datatype Env = Env(
    readOk: bool, readUuid: string,             // eFuse read of the read step
    eraseOk: bool,                              // eFuse erase
    checkReadOk: bool, checkReadUuid: string,   // eFuse read at the start of the write step
    isValid: string -> bool,                    // efuse_valid_check
    serverOk: bool, serverUuid: CText,          // mac_server_request and the UUID it returns
    writeOk: bool,                              // eFuse write (only one of its two sites runs)
    printerInitOk: bool, printOk: bool)         // nlp_init, nlp_printf

  /** The server the write step asks when no UUID was given. */
  function ServerFor(control: Mask): Endpoint
  {
    if Has(control, FactoryBit) then FactoryServer else DeveloperServer
  }

  /** The globals after `main`'s force expansion. */
  function Expand(cfg: Config): Config
  {
    cfg.(control := Expanded(cfg.control))
  }

  function Tag(p: Phase, acts: seq<Action>): seq<Event>
  {
    seq(|acts|, i requires 0 <= i < |acts| => Event(p, acts[i]))
  }

  /** Read step: read the eFuse; on success derive the MAC and show both. */
  function ReadStep(cfg: Config, env: Env): seq<Action>
  {
    if !Has(cfg.control, ReadBit) then []
    else if !env.readOk then [EfuseRead]
    else [EfuseRead, GetMac, ReportRead(env.readUuid)]
  }

  /** Erase step. */
  function EraseStep(cfg: Config, env: Env): seq<Action>
  {
    if !Has(cfg.control, EraseBit) then []
    else if !env.eraseOk then [EfuseErase]
    else [EfuseErase, ReportErased]
  }

  /** Write step: re-read the eFuse; stop if it holds a valid UUID; otherwise
      write the UUID given with `-u`, or one from the server once upper-cased
      and found valid. */
  function WriteStep(cfg: Config, env: Env): seq<Action>
  {
    if !Has(cfg.control, WriteBit) then []
    else if !env.checkReadOk then [EfuseRead]
    else if env.isValid(env.checkReadUuid) then
      [EfuseRead, ValidCheck(env.checkReadUuid), ReportAlreadyWritten(env.checkReadUuid)]
    else [EfuseRead, ValidCheck(env.checkReadUuid)] + WriteNew(cfg, env)
  }

  /** The part of the write step that runs once the eFuse is found blank. */
  function WriteNew(cfg: Config, env: Env): seq<Action>
  {
    match cfg.efuseUuid
    case Some(u) => WriteUuid(u, Explicit, env)
    case None =>
      var server := ServerFor(cfg.control);
      var u := MapUpper(env.serverUuid);
      if !env.serverOk then [ServerRequest(server, cfg.boardName)]
      else if !env.isValid(u) then [ServerRequest(server, cfg.boardName), ValidCheck(u)]
      else [ServerRequest(server, cfg.boardName), ValidCheck(u)] + WriteUuid(u, FromServer(server), env)
  }

  /** The eFuse write of `u` and, on success, its confirmation. */
  function WriteUuid(u: string, source: UuidSource, env: Env): seq<Action>
  {
    if env.writeOk then [EfuseWrite(u), ReportWritten(u, source)] else [EfuseWrite(u)]
  }

  /** Print step: initialise the printer, derive the MAC and print it. */
  function PrintStep(cfg: Config, env: Env): seq<Action>
  {
    if !Has(cfg.control, PrintBit) then []
    else if !env.printerInitOk then [PrinterInit]
    else if !env.printOk then [PrinterInit, GetMac, PrinterPrint]
    else [PrinterInit, GetMac, PrinterPrint, ReportPrinted]
  }

  /** Everything `main` does after parsing, for globals already expanded. */
  function Provision(cfg: Config, env: Env): seq<Event>
  {
    Tag(ReadPhase, ReadStep(cfg, env)) + Tag(ErasePhase, EraseStep(cfg, env)) +
    Tag(WritePhase, WriteStep(cfg, env)) + Tag(PrintPhase, PrintStep(cfg, env))
  }

  /** The bit that requests each step. */
  function BitFor(p: Phase): Mask
  {
    match p
    case ReadPhase => ReadBit
    case ErasePhase => EraseBit
    case WritePhase => WriteBit
    case PrintPhase => PrintBit
  }

  lemma TagIn(p: Phase, acts: seq<Action>, e: Event)
    ensures e in Tag(p, acts) <==> e.phase == p && e.action in acts
  {
    var t := Tag(p, acts);
    if e in t {
      var i :| 0 <= i < |t| && t[i] == e;
      assert acts[i] == e.action;
    }
    if e.phase == p && e.action in acts {
      var i :| 0 <= i < |acts| && acts[i] == e.action;
      assert t[i] == e;
    }
  }

  /** An event of the run belongs to the step its phase names. */
  lemma InProvision(cfg: Config, env: Env, e: Event)
    ensures e in Provision(cfg, env) <==>
              (e.phase == ReadPhase && e.action in ReadStep(cfg, env)) ||
              (e.phase == ErasePhase && e.action in EraseStep(cfg, env)) ||
              (e.phase == WritePhase && e.action in WriteStep(cfg, env)) ||
              (e.phase == PrintPhase && e.action in PrintStep(cfg, env))
  {
    TagIn(ReadPhase, ReadStep(cfg, env), e);
    TagIn(ErasePhase, EraseStep(cfg, env), e);
    TagIn(WritePhase, WriteStep(cfg, env), e);
    TagIn(PrintPhase, PrintStep(cfg, env), e);
  }

  /** Only the write step asks the server, checks validity or writes. */
  lemma OtherStepsQuiet(cfg: Config, env: Env, a: Action)
    requires a in ReadStep(cfg, env) || a in EraseStep(cfg, env) || a in PrintStep(cfg, env)
    ensures !a.EfuseWrite? && !a.ServerRequest? && !a.ValidCheck?
  {
  }

  /** What the part of the write step after the blank check can do. */
  lemma WriteNewContents(cfg: Config, env: Env, a: Action)
    requires a in WriteNew(cfg, env)
    ensures a.EfuseWrite? ==>
              match cfg.efuseUuid
              case Some(u) => a.uuid == u
              case None => env.serverOk && a.uuid == MapUpper(env.serverUuid) && env.isValid(a.uuid)
    ensures a.ServerRequest? ==>
              cfg.efuseUuid.None? && a.endpoint == ServerFor(cfg.control) && a.boardName == cfg.boardName
  {
    match cfg.efuseUuid
    case Some(u) =>
      assert a in WriteUuid(u, Explicit, env);
    case None =>
      var server, u := ServerFor(cfg.control), MapUpper(env.serverUuid);
      if env.serverOk && env.isValid(u) {
        assert a in [ServerRequest(server, cfg.boardName), ValidCheck(u)] || a in WriteUuid(u, FromServer(server), env);
      }
  }

  /** What the write step can do: anything past the re-read and the validity
      check needs a blank eFuse; a write stores the `-u` UUID or the server's
      upper-cased, valid one; a request goes to the server the factory bit
      selects. */
  lemma WriteStepContents(cfg: Config, env: Env, a: Action)
    requires a in WriteStep(cfg, env)
    ensures Has(cfg.control, WriteBit)
    ensures a.EfuseWrite? || a.ServerRequest? || a.ReportWritten? ==>
              env.checkReadOk && !env.isValid(env.checkReadUuid)
    ensures a.EfuseWrite? ==>
              match cfg.efuseUuid
              case Some(u) => a.uuid == u
              case None => env.serverOk && a.uuid == MapUpper(env.serverUuid) && env.isValid(a.uuid)
    ensures a.ServerRequest? ==>
              cfg.efuseUuid.None? && a.endpoint == ServerFor(cfg.control) && a.boardName == cfg.boardName
  {
    if env.checkReadOk && !env.isValid(env.checkReadUuid) {
      if a !in [EfuseRead, ValidCheck(env.checkReadUuid)] {
        WriteNewContents(cfg, env, a);
      }
    }
  }

  /** The eFuse is written only in the write step, only after the re-read
      succeeded, and only when the UUID read back fails the validity check:
      a valid UUID is never overwritten. */
  lemma WriteGuard(cfg: Config, env: Env, e: Event)
    requires e in Provision(cfg, env) && e.action.EfuseWrite?
    ensures e.phase == WritePhase
    ensures Has(cfg.control, WriteBit) && env.checkReadOk && !env.isValid(env.checkReadUuid)
  {
    InProvision(cfg, env, e);
    if e.phase == WritePhase && e.action in WriteStep(cfg, env) {
      WriteStepContents(cfg, env, e.action);
    } else {
      OtherStepsQuiet(cfg, env, e.action);
    }
  }

  /** When the eFuse already holds a valid UUID, the write step reports it and
      neither asks the server nor writes. */
  lemma AlreadyWritten(cfg: Config, env: Env)
    requires Has(cfg.control, WriteBit) && env.checkReadOk && env.isValid(env.checkReadUuid)
    ensures Event(WritePhase, ReportAlreadyWritten(env.checkReadUuid)) in Provision(cfg, env)
    ensures forall e :: e in Provision(cfg, env) ==> !e.action.EfuseWrite? && !e.action.ServerRequest?
  {
    InProvision(cfg, env, Event(WritePhase, ReportAlreadyWritten(env.checkReadUuid)));
    forall e | e in Provision(cfg, env)
      ensures !e.action.EfuseWrite? && !e.action.ServerRequest?
    {
      InProvision(cfg, env, e);
    }
  }

  /** With `-u`, no server request is made, the given UUID is the only one
      written, and it is written whenever the eFuse is found blank. */
  lemma ExplicitUuidBypassesServer(cfg: Config, env: Env)
    requires cfg.efuseUuid.Some?
    ensures forall e :: e in Provision(cfg, env) ==> !e.action.ServerRequest?
    ensures forall e :: e in Provision(cfg, env) && e.action.EfuseWrite? ==>
              e.action.uuid == cfg.efuseUuid.value
    ensures Has(cfg.control, WriteBit) && env.checkReadOk && !env.isValid(env.checkReadUuid) ==>
              Event(WritePhase, EfuseWrite(cfg.efuseUuid.value)) in Provision(cfg, env)
  {
    forall e | e in Provision(cfg, env)
      ensures !e.action.ServerRequest?
      ensures e.action.EfuseWrite? ==> e.action.uuid == cfg.efuseUuid.value
    {
      InProvision(cfg, env, e);
      if e.phase == WritePhase && e.action in WriteStep(cfg, env) {
        WriteStepContents(cfg, env, e.action);
      } else {
        OtherStepsQuiet(cfg, env, e.action);
      }
    }
    var w := EfuseWrite(cfg.efuseUuid.value);
    if Has(cfg.control, WriteBit) && env.checkReadOk && !env.isValid(env.checkReadUuid) {
      assert w in WriteUuid(cfg.efuseUuid.value, Explicit, env);
      assert w in WriteStep(cfg, env);
      InProvision(cfg, env, Event(WritePhase, w));
    }
  }

  /** A server request is made only without `-u`, to the factory server
      exactly when the factory bit is set, for the configured board; and it is
      made whenever a write finds the eFuse blank and no UUID was given. */
  lemma ServerRequestRule(cfg: Config, env: Env)
    ensures forall e :: e in Provision(cfg, env) && e.action.ServerRequest? ==>
              cfg.efuseUuid.None? && e.phase == WritePhase &&
              (e.action.endpoint == FactoryServer <==> Has(cfg.control, FactoryBit)) &&
              e.action.boardName == cfg.boardName
    ensures Has(cfg.control, WriteBit) && env.checkReadOk && !env.isValid(env.checkReadUuid) &&
            cfg.efuseUuid.None? ==>
              Event(WritePhase, ServerRequest(ServerFor(cfg.control), cfg.boardName)) in Provision(cfg, env)
  {
    forall e | e in Provision(cfg, env) && e.action.ServerRequest?
      ensures cfg.efuseUuid.None? && e.phase == WritePhase
      ensures e.action.endpoint == FactoryServer <==> Has(cfg.control, FactoryBit)
      ensures e.action.boardName == cfg.boardName
    {
      InProvision(cfg, env, e);
      if e.phase == WritePhase && e.action in WriteStep(cfg, env) {
        WriteStepContents(cfg, env, e.action);
      } else {
        OtherStepsQuiet(cfg, env, e.action);
      }
    }
    var r := ServerRequest(ServerFor(cfg.control), cfg.boardName);
    if Has(cfg.control, WriteBit) && env.checkReadOk && !env.isValid(env.checkReadUuid) && cfg.efuseUuid.None? {
      assert r in WriteNew(cfg, env);
      assert r in WriteStep(cfg, env);
      InProvision(cfg, env, Event(WritePhase, r));
    }
  }

  /** Without `-u`, what gets written is the server's UUID upper-cased, and
      only once it has passed the validity check. */
  lemma ServerUuidWritten(cfg: Config, env: Env, e: Event)
    requires cfg.efuseUuid.None? && e in Provision(cfg, env) && e.action.EfuseWrite?
    ensures env.serverOk && e.action.uuid == MapUpper(env.serverUuid) && env.isValid(e.action.uuid)
    ensures Event(WritePhase, ValidCheck(e.action.uuid)) in Provision(cfg, env)
    ensures forall k :: 0 <= k < |e.action.uuid| ==> !IsLower(e.action.uuid[k])
  {
    InProvision(cfg, env, e);
    if e.phase == WritePhase && e.action in WriteStep(cfg, env) {
      WriteStepContents(cfg, env, e.action);
    } else {
      OtherStepsQuiet(cfg, env, e.action);
    }
    var c := ValidCheck(e.action.uuid);
    assert c in WriteNew(cfg, env);
    assert c in WriteStep(cfg, env);
    InProvision(cfg, env, Event(WritePhase, c));
    forall k | 0 <= k < |e.action.uuid|
      ensures !IsLower(e.action.uuid[k])
    {
      MapUpperAt(env.serverUuid, k);
    }
  }

  /** In four segments of read, erase, write and print events, the rank of
      an event is fixed by the segment it falls in. */
  lemma RankInSegments(a: seq<Event>, b: seq<Event>, c: seq<Event>, d: seq<Event>, i: int)
    requires forall k :: 0 <= k < |a| ==> a[k].phase == ReadPhase
    requires forall k :: 0 <= k < |b| ==> b[k].phase == ErasePhase
    requires forall k :: 0 <= k < |c| ==> c[k].phase == WritePhase
    requires forall k :: 0 <= k < |d| ==> d[k].phase == PrintPhase
    requires 0 <= i < |a + b + c + d|
    ensures Rank((a + b + c + d)[i].phase) ==
              if i < |a| then 0 else if i < |a| + |b| then 1 else if i < |a| + |b| + |c| then 2 else 3
  {
    var t := a + b + c + d;
    if i < |a| {
      assert t[i] == a[i];
    } else if i < |a| + |b| {
      assert t[i] == b[i - |a|];
    } else if i < |a| + |b| + |c| {
      assert t[i] == c[i - |a| - |b|];
    } else {
      assert t[i] == d[i - |a| - |b| - |c|];
    }
  }

  /** The steps run in the order read, erase, write, print. */
  lemma StepsInOrder(cfg: Config, env: Env)
    ensures forall i, j :: 0 <= i < j < |Provision(cfg, env)| ==>
              Rank(Provision(cfg, env)[i].phase) <= Rank(Provision(cfg, env)[j].phase)
  {
    var a, b, c, d := Tag(ReadPhase, ReadStep(cfg, env)), Tag(ErasePhase, EraseStep(cfg, env)),
                      Tag(WritePhase, WriteStep(cfg, env)), Tag(PrintPhase, PrintStep(cfg, env));
    var t := Provision(cfg, env);
    assert t == a + b + c + d;
    forall i, j | 0 <= i < j < |t|
      ensures Rank(t[i].phase) <= Rank(t[j].phase)
    {
      RankInSegments(a, b, c, d, i);
      RankInSegments(a, b, c, d, j);
    }
  }

  /** A step shows up in the run exactly when its bit is set. */
  lemma StepRunsIffRequested(cfg: Config, env: Env, p: Phase)
    ensures (exists e :: e in Provision(cfg, env) && e.phase == p) <==> Has(cfg.control, BitFor(p))
  {
    forall e | e in Provision(cfg, env) && e.phase == p
      ensures Has(cfg.control, BitFor(p))
    {
      InProvision(cfg, env, e);
    }
    if Has(cfg.control, BitFor(p)) {
      var first := match p
        case ReadPhase => EfuseRead
        case ErasePhase => EfuseErase
        case WritePhase => EfuseRead
        case PrintPhase => PrinterInit;
      InProvision(cfg, env, Event(p, first));
    }
  }

  /** The run depends on the mask only through the bits of the four steps and
      the factory bit. */
  lemma ProvisionReadsStepBits(cfg: Config, other: Config, env: Env)
    requires cfg.boardName == other.boardName && cfg.efuseUuid == other.efuseUuid
    requires forall p :: Has(cfg.control, BitFor(p)) == Has(other.control, BitFor(p))
    requires Has(cfg.control, FactoryBit) == Has(other.control, FactoryBit)
    ensures Provision(cfg, env) == Provision(other, env)
  {
    assert Has(cfg.control, BitFor(ReadPhase)) == Has(other.control, BitFor(ReadPhase));
    assert Has(cfg.control, BitFor(ErasePhase)) == Has(other.control, BitFor(ErasePhase));
    assert Has(cfg.control, BitFor(WritePhase)) == Has(other.control, BitFor(WritePhase));
    assert Has(cfg.control, BitFor(PrintPhase)) == Has(other.control, BitFor(PrintPhase));
  }

  /** `-f` does what `-e -w` does. */
  lemma ForceActsAsEraseWrite(cfg: Config, env: Env)
    ensures Provision(Expand(cfg.(control := cfg.control | ForceBit)), env) ==
            Provision(Expand(cfg.(control := cfg.control | EraseBit | WriteBit)), env)
  {
    var forced, both := Expand(cfg.(control := cfg.control | ForceBit)),
                        Expand(cfg.(control := cfg.control | EraseBit | WriteBit));
    forall p ensures Has(forced.control, BitFor(p)) == Has(both.control, BitFor(p)) {
    }
    ProvisionReadsStepBits(forced, both, env);
  }

  /** When the write step is requested, the `-u` argument kept by parsing
      fits the `EFUSE_SIZE_M1S` characters of `mac_uuid`, which the copy at
      line 198 relies on. */
  predicate UuidFits(stream: seq<ParsedOption>, capacity: nat)
  {
    match Parsed(Initial, stream)
    case Some(cfg) =>
      Has(Expanded(cfg.control), WriteBit) ==> cfg.efuseUuid.None? || |cfg.efuseUuid.value| <= capacity
    case None => true
  }

  /** `main`: exit status 1 with no library call on a usage error (an
      unknown option, or fewer than 2 arguments); otherwise status 0 and the
      calls of `Provision` on the parsed and expanded globals. */
  method Run(argc: int, stream: seq<ParsedOption>, env: Env, uuidCapacity: nat)
    returns (status: int, trace: seq<Event>)
    requires UuidFits(stream, uuidCapacity)
    ensures Parsed(Initial, stream).None? || argc < 2 ==> status == 1 && trace == []
    ensures Parsed(Initial, stream).Some? && argc >= 2 ==>
              status == 0 && trace == Provision(Expand(Parsed(Initial, stream).value), env)
  {
    var opts := new Options();
    var ok := opts.ParseOpts(stream);
    if !ok || argc < 2 {
      return 1, [];
    }
    opts.ExpandForce();
    var cfg := opts.Snapshot();
    var acts := ReadEfuse(cfg, env);
    trace := Tag(ReadPhase, acts);
    acts := EraseEfuse(cfg, env);
    trace := trace + Tag(ErasePhase, acts);
    acts := WriteEfuse(cfg, env, uuidCapacity);
    trace := trace + Tag(WritePhase, acts);
    acts := PrintMac(cfg, env);
    trace := trace + Tag(PrintPhase, acts);
    status := 0;
  }

  /** The read step of `main`, call by call, as `Run` executes it; proved
      equal to the step function `ReadStep` that the lemmas above reason about. */
  method ReadEfuse(cfg: Config, env: Env) returns (acts: seq<Action>)
    ensures acts == ReadStep(cfg, env)
  {
    acts := [];
    if cfg.control & ReadBit != 0 {
      var macUuid := "";
      acts := acts + [EfuseRead];
      if env.readOk {
        macUuid := env.readUuid;
        acts := acts + [GetMac, ReportRead(macUuid)];
      }
    }
  }

  /** The erase step of `main`, call by call; proved equal to `EraseStep`. */
  method EraseEfuse(cfg: Config, env: Env) returns (acts: seq<Action>)
    ensures acts == EraseStep(cfg, env)
  {
    acts := [];
    if cfg.control & EraseBit != 0 {
      acts := acts + [EfuseErase];
      if env.eraseOk {
        acts := acts + [ReportErased];
      }
    }
  }

  /** The write step of `main`, call by call, with `mac_uuid` reused for each
      value it holds and the `-u` UUID going through the cleared buffer; proved
      equal to `WriteStep`. */
  method WriteEfuse(cfg: Config, env: Env, uuidCapacity: nat) returns (acts: seq<Action>)
    requires Has(cfg.control, WriteBit) ==> cfg.efuseUuid.None? || |cfg.efuseUuid.value| <= uuidCapacity
    ensures acts == WriteStep(cfg, env)
  {
    acts := [];
    if cfg.control & WriteBit != 0 {
      var macUuid: string := "";
      acts := acts + [EfuseRead];
      if env.checkReadOk {
        macUuid := env.checkReadUuid;
        acts := acts + [ValidCheck(macUuid)];
        if env.isValid(macUuid) {
          acts := acts + [ReportAlreadyWritten(macUuid)];
        } else if cfg.efuseUuid.Some? {
          macUuid := CopyIntoCleared(cfg.efuseUuid.value, uuidCapacity);
          acts := acts + [EfuseWrite(macUuid)];
          if env.writeOk {
            acts := acts + [ReportWritten(macUuid, Explicit)];
          }
        } else {
          var server := if cfg.control & FactoryBit != 0 then FactoryServer else DeveloperServer;
          macUuid := "";
          acts := acts + [ServerRequest(server, cfg.boardName)];
          if env.serverOk {
            macUuid := UpperText(env.serverUuid);
            acts := acts + [ValidCheck(macUuid)];
            if env.isValid(macUuid) {
              acts := acts + [EfuseWrite(macUuid)];
              if env.writeOk {
                acts := acts + [ReportWritten(macUuid, FromServer(server))];
              }
            }
          }
        }
      }
    }
  }

  /** The print step of `main`, call by call; proved equal to `PrintStep`. */
  method PrintMac(cfg: Config, env: Env) returns (acts: seq<Action>)
    ensures acts == PrintStep(cfg, env)
  {
    acts := [];
    if cfg.control & PrintBit != 0 {
      acts := acts + [PrinterInit];
      if env.printerInitOk {
        acts := acts + [GetMac, PrinterPrint];
        if env.printOk {
          acts := acts + [ReportPrinted];
        }
      }
    }
  }
}
