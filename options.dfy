/** Command-line options of efuse_control.c: the `OPT_CONTROL` bit mask, the
    board name and the UUID that `parse_opts` accumulates from the options
    `getopt_long` hands it, and the expansion of `-f` into erase and write
    that `main` performs before any step runs. */
module EfuseOptions {
  import opened CString

  datatype Option<+T> = None | Some(value: T)

  /** `unsigned int OPT_CONTROL`. */
  type Mask = bv8

  const FactoryBit: Mask := 0x1
  const UuidBit: Mask := 0x2
  const WriteBit: Mask := 0x4
  const EraseBit: Mask := 0x8
  const ReadBit: Mask := 0x10
  const ForceBit: Mask := 0x20
  const PrintBit: Mask := 0x40

  /** Every bit the program gives a meaning to. */
  const KnownBits: Mask := FactoryBit | UuidBit | WriteBit | EraseBit | ReadBit | ForceBit | PrintBit

  predicate Has(m: Mask, bit: Mask) { m & bit != 0 }

  /** The option characters of the short-option string "B:DFewu:frp". */
  const Recognised: string := "BDFewufrp"

  /** The options that only raise a bit of their own. */
  const PlainFlags: string := "ewfrp"

  /** The bit each plain flag owns. */
  function BitOf(c: char): (b: Mask)
    requires c in PlainFlags
    ensures b & KnownBits == b && b & FactoryBit == 0 && b & UuidBit == 0
  {
    match c
    case 'e' => EraseBit
    case 'w' => WriteBit
    case 'f' => ForceBit
    case 'r' => ReadBit
    case 'p' => PrintBit
  }

  /** Distinct flags own distinct, single bits. */
  lemma BitsDistinct(c: char, d: char)
    requires c in PlainFlags && d in PlainFlags
    ensures (BitOf(c) & BitOf(d) != 0) <==> c == d
    ensures BitOf(c) & (BitOf(c) - 1) == 0 && BitOf(c) != 0
  {
  }

  /** One option as `getopt_long` returns it: its character and, for `-B`
      and `-u`, its argument (otherwise unused). */
  datatype ParsedOption = ParsedOption(name: char, arg: CText)

  /** The three globals `parse_opts` writes. */
  datatype Config = Config(control: Mask, boardName: string, efuseUuid: Option<CText>)

  /** Their initial values: no bit set, board "m1s", no UUID. */
  const Initial: Config := Config(0, "m1s", None)

  /** The effect of one option on the globals; None where `parse_opts` prints
      the usage text and exits. */
  function Apply(cfg: Config, o: ParsedOption): Option<Config>
  {
    match o.name
    case 'F' => Some(cfg.(control := cfg.control | FactoryBit))
    case 'D' => Some(cfg.(control := cfg.control & !FactoryBit))
    case 'B' => Some(cfg.(boardName := o.arg))
    case 'e' => Some(cfg.(control := cfg.control | EraseBit))
    case 'w' => Some(cfg.(control := cfg.control | WriteBit))
    case 'u' => Some(cfg.(control := cfg.control | UuidBit, efuseUuid := Some(MapUpper(o.arg))))
    case 'f' => Some(cfg.(control := cfg.control | ForceBit))
    case 'r' => Some(cfg.(control := cfg.control | ReadBit))
    case 'p' => Some(cfg.(control := cfg.control | PrintBit))
    case _ => None
  }

  /** The globals after a whole option stream, or None on a usage error. */
  function Parsed(cfg: Config, s: seq<ParsedOption>): Option<Config>
    decreases |s|
  {
    if s == [] then Some(cfg)
    else match Apply(cfg, s[0])
      case None => None
      case Some(next) => Parsed(next, s[1..])
  }

  /** Parsing a non-empty stream is applying its first option and parsing the rest. */
  lemma ParsedStep(cfg: Config, s: seq<ParsedOption>, next: Config)
    requires s != [] && Apply(cfg, s[0]) == Some(next)
    ensures Parsed(cfg, s) == Parsed(next, s[1..])
  {
  }

  /** The argument of the last option `c` in the stream, if any. */
  function LastArg(s: seq<ParsedOption>, c: char): Option<CText>
    decreases |s|
  {
    if s == [] then None
    else match LastArg(s[1..], c)
      case Some(a) => Some(a)
      case None => if s[0].name == c then Some(s[0].arg) else None
  }

  /** The last of `-F` and `-D` in the stream, if any. */
  function LastMode(s: seq<ParsedOption>): Option<char>
    decreases |s|
  {
    if s == [] then None
    else match LastMode(s[1..])
      case Some(m) => Some(m)
      case None => if s[0].name in "FD" then Some(s[0].name) else None
  }

  /** Each of `-e`, `-w`, `-f`, `-r`, `-p` raises exactly its own bit and
      leaves every other bit, the board name and the UUID as they were. */
  lemma FlagOwnBit(cfg: Config, o: ParsedOption)
    requires o.name in PlainFlags
    ensures Apply(cfg, o).Some?
    ensures Has(Apply(cfg, o).value.control, BitOf(o.name))
    ensures Apply(cfg, o).value.control & !BitOf(o.name) == cfg.control & !BitOf(o.name)
    ensures Apply(cfg, o).value.boardName == cfg.boardName
    ensures Apply(cfg, o).value.efuseUuid == cfg.efuseUuid
  {
  }

  /** `-B` replaces the board name and nothing else. */
  lemma BoardOnly(cfg: Config, o: ParsedOption)
    requires o.name == 'B'
    ensures Apply(cfg, o) == Some(Config(cfg.control, o.arg, cfg.efuseUuid))
  {
  }

  /** `-u` raises the UUID bit, stores its argument upper-cased and leaves the
      other bits and the board name alone. */
  lemma UuidOption(cfg: Config, o: ParsedOption)
    requires o.name == 'u'
    ensures Apply(cfg, o).Some?
    ensures Has(Apply(cfg, o).value.control, UuidBit)
    ensures Apply(cfg, o).value.control & !UuidBit == cfg.control & !UuidBit
    ensures Apply(cfg, o).value.efuseUuid == Some(MapUpper(o.arg))
    ensures forall k :: 0 <= k < |o.arg| ==> !IsLower(Apply(cfg, o).value.efuseUuid.value[k])
    ensures Apply(cfg, o).value.boardName == cfg.boardName
  {
    var u := MapUpper(o.arg);
    forall k | 0 <= k < |o.arg| ensures !IsLower(u[k]) {
      MapUpperAt(o.arg, k);
    }
  }

  /** Parsing ends in the usage exit exactly when some option is not one of
      the nine the program knows. */
  lemma {:induction false} UsageIffUnknown(cfg: Config, s: seq<ParsedOption>)
    ensures Parsed(cfg, s).None? <==> exists i :: 0 <= i < |s| && s[i].name !in Recognised
    decreases |s|
  {
    if s != [] {
      if s[0].name in Recognised {
        var next := Apply(cfg, s[0]).value;
        UsageIffUnknown(next, s[1..]);
        if Parsed(cfg, s).None? {
          var i :| 0 <= i < |s[1..]| && s[1..][i].name !in Recognised;
          assert s[i + 1].name !in Recognised;
        } else {
          forall i | 0 <= i < |s| ensures s[i].name in Recognised {
            if i > 0 { assert s[i] == s[1..][i - 1]; }
          }
        }
      }
    }
  }

  /** Factory or developer mode is decided by the last `-F` or `-D`; with
      neither, the factory bit keeps its initial value. */
  lemma {:induction false} FactoryFromLastMode(cfg: Config, s: seq<ParsedOption>)
    requires Parsed(cfg, s).Some?
    ensures Has(Parsed(cfg, s).value.control, FactoryBit) ==
              match LastMode(s)
              case Some(m) => m == 'F'
              case None => Has(cfg.control, FactoryBit)
    decreases |s|
  {
    if s != [] {
      FactoryFromLastMode(Apply(cfg, s[0]).value, s[1..]);
    }
  }

  /** One option changes a plain flag's bit only by raising it, and only when
      it is that flag. */
  lemma FlagStep(cfg: Config, o: ParsedOption, c: char)
    requires c in PlainFlags && Apply(cfg, o).Some?
    ensures Has(Apply(cfg, o).value.control, BitOf(c)) <==> Has(cfg.control, BitOf(c)) || o.name == c
  {
  }

  /** A plain flag's bit is set after parsing exactly when it was set before
      or the flag occurs in the stream. */
  lemma {:induction false} FlagFromStream(cfg: Config, s: seq<ParsedOption>, c: char)
    requires c in PlainFlags && Parsed(cfg, s).Some?
    ensures Has(Parsed(cfg, s).value.control, BitOf(c)) <==>
              Has(cfg.control, BitOf(c)) || exists i :: 0 <= i < |s| && s[i].name == c
    decreases |s|
  {
    if s != [] {
      var next := Apply(cfg, s[0]).value;
      FlagStep(cfg, s[0], c);
      FlagFromStream(next, s[1..], c);
      if exists i :: 0 <= i < |s| && s[i].name == c {
        var i :| 0 <= i < |s| && s[i].name == c;
        if i > 0 { assert s[1..][i - 1].name == c; }
      }
      if exists i :: 0 <= i < |s[1..]| && s[1..][i].name == c {
        var i :| 0 <= i < |s[1..]| && s[1..][i].name == c;
        assert s[i + 1].name == c;
      }
    }
  }

  /** The board name is the argument of the last `-B`, or the initial one. */
  lemma {:induction false} BoardFromLastB(cfg: Config, s: seq<ParsedOption>)
    requires Parsed(cfg, s).Some?
    ensures Parsed(cfg, s).value.boardName ==
              match LastArg(s, 'B')
              case Some(a) => a
              case None => cfg.boardName
    decreases |s|
  {
    if s != [] {
      BoardFromLastB(Apply(cfg, s[0]).value, s[1..]);
    }
  }

  /** The UUID is the upper-cased argument of the last `-u`, or the initial
      one; the UUID bit is set once any `-u` has been seen. */
  lemma {:induction false} UuidFromLastU(cfg: Config, s: seq<ParsedOption>)
    requires Parsed(cfg, s).Some?
    ensures Parsed(cfg, s).value.efuseUuid ==
              match LastArg(s, 'u')
              case Some(a) => Some(MapUpper(a))
              case None => cfg.efuseUuid
    ensures LastArg(s, 'u').Some? ==> Has(Parsed(cfg, s).value.control, UuidBit)
    ensures LastArg(s, 'u').None? ==>
              Parsed(cfg, s).value.control & UuidBit == cfg.control & UuidBit
    decreases |s|
  {
    if s != [] {
      var next := Apply(cfg, s[0]).value;
      UuidFromLastU(next, s[1..]);
    }
  }

  /** Bits the program does not define are never touched by parsing. */
  lemma {:induction false} UnknownBitsKept(cfg: Config, s: seq<ParsedOption>)
    requires Parsed(cfg, s).Some?
    ensures Parsed(cfg, s).value.control & !KnownBits == cfg.control & !KnownBits
    decreases |s|
  {
    if s != [] {
      UnknownBitsKept(Apply(cfg, s[0]).value, s[1..]);
    }
  }

  /** What parsing a well-formed command line yields, from the initial globals:
      developer mode unless the last mode option is `-F`, board "m1s" unless
      some `-B` is given, and a UUID exactly when some `-u` is given. */
  lemma ParsedFromInitial(s: seq<ParsedOption>)
    requires Parsed(Initial, s).Some?
    ensures Has(Parsed(Initial, s).value.control, FactoryBit) <==> LastMode(s) == Some('F')
    ensures LastArg(s, 'B').None? ==> Parsed(Initial, s).value.boardName == "m1s"
    ensures Parsed(Initial, s).value.efuseUuid.Some? <==> LastArg(s, 'u').Some?
    ensures Has(Parsed(Initial, s).value.control, UuidBit) <==> LastArg(s, 'u').Some?
    ensures Parsed(Initial, s).value.control & !KnownBits == 0
  {
    FactoryFromLastMode(Initial, s);
    BoardFromLastB(Initial, s);
    UuidFromLastU(Initial, s);
    UnknownBitsKept(Initial, s);
  }

  /** `main`'s force expansion: with the force bit, erase and write are
      requested too; no other bit changes. */
  function Expanded(m: Mask): (r: Mask)
    ensures Has(r, ForceBit) ==> Has(r, EraseBit) && Has(r, WriteBit)
    ensures Has(r, ForceBit) == Has(m, ForceBit)
    ensures r & m == m
    ensures r & !(EraseBit | WriteBit) == m & !(EraseBit | WriteBit)
    ensures !Has(m, ForceBit) ==> r == m
  {
    if Has(m, ForceBit) then m | EraseBit | WriteBit else m
  }

  lemma ExpandedIdempotent(m: Mask)
    ensures Expanded(Expanded(m)) == Expanded(m)
  {
  }

  /** The globals as a class, as `parse_opts` and `main` update them. */
  class Options {
    var control: Mask
    var boardName: string
    var efuseUuid: Option<CText>

    function Snapshot(): Config
      reads this
    {
      Config(control, boardName, efuseUuid)
    }

    constructor ()
      ensures Snapshot() == Initial
    {
      control, boardName, efuseUuid := 0, "m1s", None;
    }

    /** `parse_opts`: applies the options in order; false where an
        unrecognised option sends the program to `print_usage` and `exit(1)`. */
    method ParseOpts(stream: seq<ParsedOption>) returns (ok: bool)
      modifies this
      ensures ok == Parsed(old(Snapshot()), stream).Some?
      ensures ok ==> Parsed(old(Snapshot()), stream) == Some(Snapshot())
    {
      ghost var start := Snapshot();
      var i := 0;
      while i < |stream|
        invariant 0 <= i <= |stream|
        invariant Parsed(start, stream) == Parsed(Snapshot(), stream[i..])
      {
        ghost var before := Snapshot();
        ok := HandleOption(stream[i]);
        if !ok {
          return;
        }
        ParsedStep(before, stream[i..], Snapshot());
        assert stream[i..][1..] == stream[i + 1..];
        i := i + 1;
      }
      return true;
    }

    /** The `switch` in `parse_opts` for one option; false for the `default`
        branch, which prints the usage text and exits. */
    method HandleOption(o: ParsedOption) returns (ok: bool)
      modifies this
      ensures ok == Apply(old(Snapshot()), o).Some?
      ensures ok ==> Apply(old(Snapshot()), o) == Some(Snapshot())
    {
      ok := true;
      match o.name {
        case 'F' => control := control | FactoryBit;
        case 'D' => control := control & !FactoryBit;
        case 'B' => boardName := o.arg;
        case 'e' => control := control | EraseBit;
        case 'w' => control := control | WriteBit;
        case 'u' =>
          control := control | UuidBit;
          UpperUuid(o.arg);
        case 'f' => control := control | ForceBit;
        case 'r' => control := control | ReadBit;
        case 'p' => control := control | PrintBit;
        case _ => ok := false;
      }
    }

    /** `-u`: upper-cases the argument in place and keeps it as the UUID. */
    method UpperUuid(arg: CText)
      modifies this`efuseUuid
      ensures efuseUuid == Some(MapUpper(arg))
    {
      var upper := UpperText(arg);
      efuseUuid := Some(upper);
    }

    /** The force expansion at the start of `main`. */
    method ExpandForce()
      modifies this`control
      ensures control == Expanded(old(control))
    {
      if control & ForceBit != 0 {
        control := control | EraseBit;
        control := control | WriteBit;
      }
    }
  }
}
