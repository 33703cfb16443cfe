# efuse_control in Dafny

A model of `efuse_control`, the command-line tool that provisions the
eFuse-stored UUID of a Hardkernel ODROID board. Three parts are modelled.

- **`CString`** (`cstring.dfy`): `toupperstr` and `tolowerstr`. Each rewrites a
  NUL-terminated buffer in place. `strncpy` is here too, as `main` uses it to
  copy a `-u` UUID into `mac_uuid`.
- **`EfuseOptions`** (`options.dfy`): `parse_opts`. It folds the options that
  `getopt_long` returns into three globals: the `OPT_CONTROL` bit mask, the
  board name (default `"m1s"`) and the UUID. The class `Options` holds these
  globals. Its methods update them as `parse_opts` and `main`'s force
  expansion do. The function `Parsed` specifies them.
- **`Provisioning`** (`provisioning.dfy`): `main`. After parsing and the
  expansion of `-f` into erase and write, the steps run in a fixed order:
  read, erase, write, print. The eFuse library, the MAC-allocation server
  client and the label-printer client are oracle inputs (`Env`). `Run`
  returns the exit status and a trace of `Event`s. The trace records each
  library call (with the arguments the model tracks), each confirmation line and the step it
  belongs to. The function `Provision` specifies the trace, and the lemmas
  state the tool's rules about it.

Two details of the code that the model keeps:
- A UUID given with `-u` is written without the validity check. Only the
  server's UUID is checked (efuse_control.c:196-212).
- `parse_opts` runs before the argument-count check, and either can end in
  usage and `exit(1)` (efuse_control.c:165-168). Both give status 1 and an
  empty trace.

## Model

| member | source | states |
|---|---|---|
| `CString.ToUpper` | efuse_control.c:56 | `toupper` in the C locale: the result is never a lower-case letter; a lower-case letter becomes the upper-case letter 32 code points below it; every other character is unchanged |
| `CString.ToLower` | efuse_control.c:47 | `tolower` in the C locale, the mirror image of `ToUpper` |
| `CString.CaseRoundTrip` | efuse_control.c:42-57 | a property of `toupper` and `tolower` only (the program never combines them): lower-casing undoes upper-casing on lower-case letters and the reverse; each absorbs the other |
| `CString.StrLen` | efuse_control.c:44 | `strlen` is the index of the first NUL: a NUL stands there and none before it |
| `CString.StrLenAt` | efuse_control.c:53 | a NUL with none before it is where `strlen` stops |
| `CString.MapUpper` | efuse_control.c:55-56 | upper-casing a text keeps its length and never introduces a NUL |
| `CString.MapUpperAt` | efuse_control.c:55-56 | each character of the upper-cased text is `toupper` of the character at the same position |
| `CString.MapLowerAt` | efuse_control.c:46-47 | each character of the lower-cased text is `tolower` of the character at the same position |
| `CString.UpperStrSpec` | efuse_control.c:51-57 | `toupperstr` keeps the buffer length and the position of the first NUL; it turns each lower-case letter before that NUL into its upper-case form and leaves every other character unchanged |
| `CString.LowerStrSpec` | efuse_control.c:42-48 | the mirror image for `tolowerstr` |
| `CString.MapUpperIdempotent` | efuse_control.c:55-56 | upper-casing a text twice gives the same text as upper-casing it once |
| `CString.MapLowerIdempotent` | efuse_control.c:46-47 | lower-casing a text twice gives the same text as lower-casing it once |
| `CString.MapCaseAbsorb` | efuse_control.c:42-57 | a property of the two case maps only (the program never calls `tolowerstr`): lower-casing after upper-casing is just lower-casing, and the reverse |
| `CString.UpperStrIdempotent` | efuse_control.c:51-57 | applying `toupperstr` twice gives the same buffer as applying it once |
| `CString.LowerStrIdempotent` | efuse_control.c:42-48 | applying `tolowerstr` twice gives the same buffer as applying it once |
| `CString.UpperStrOfText` | efuse_control.c:51-57 | on a C string holding a text, `toupperstr` leaves the upper-cased text followed by its NUL |
| `CString.ToUpperStr` | efuse_control.c:51-57 | the in-place loop leaves the buffer equal to `UpperStr` of its old contents |
| `CString.ToLowerStr` | efuse_control.c:42-48 | the in-place loop leaves the buffer equal to `LowerStr` of its old contents |
| `CString.UpperText` | efuse_control.c:140 | running `toupperstr` over a C string gives back the upper-cased text |
| `CString.StrNCopy` | efuse_control.c:198 | `strncpy` with the source's length copies exactly the source's characters and changes nothing after them |
| `CString.CopyIntoCleared` | efuse_control.c:197-198 | clearing `mac_uuid` and then copying a UUID that fits into it leaves exactly that UUID in the buffer |
| `EfuseOptions.BitOf` | efuse_control.c:60-66 | each plain flag owns one of the defined bits, never the factory or UUID bit |
| `EfuseOptions.BitsDistinct` | efuse_control.c:60-66 | the flags' bits are single bits, and different flags have different bits |
| `EfuseOptions.ParsedStep` | efuse_control.c:101-156 | parsing a stream applies its first option, then parses the rest |
| `EfuseOptions.FlagOwnBit` | efuse_control.c:131-136 | each of `-e -w -f -r -p` sets its own bit and changes no other bit, the board name or the UUID |
| `EfuseOptions.FlagStep` | efuse_control.c:121-155 | one option changes a flag's bit only by setting it, and only if the option is that flag |
| `EfuseOptions.BoardOnly` | efuse_control.c:128-130 | `-B` replaces the board name and nothing else |
| `EfuseOptions.UuidOption` | efuse_control.c:137-142 | `-u` sets the UUID bit and changes no other bit; it stores its argument upper-cased (no lower-case letter left) and leaves the board name alone |
| `EfuseOptions.UsageIffUnknown` | efuse_control.c:152-154 | parsing ends in the usage exit if and only if some option is not one of `B D F e w u f r p` |
| `EfuseOptions.FactoryFromLastMode` | efuse_control.c:122-127 | after parsing, the factory bit is set iff the last `-F`/`-D` is `-F`; with neither, the bit keeps its initial value |
| `EfuseOptions.FlagFromStream` | efuse_control.c:131-151 | after parsing, a flag's bit is set iff it was already set or the flag occurs in the stream |
| `EfuseOptions.BoardFromLastB` | efuse_control.c:128-130 | after parsing, the board name is the argument of the last `-B`, or the previous name if there is none |
| `EfuseOptions.UuidFromLastU` | efuse_control.c:137-142 | after parsing, the UUID is the upper-cased argument of the last `-u`; any `-u` sets the UUID bit; without one the UUID and its bit are unchanged |
| `EfuseOptions.UnknownBitsKept` | efuse_control.c:121-155 | parsing never changes a bit the program does not define |
| `EfuseOptions.ParsedFromInitial` | efuse_control.c:68-71 | from the initial globals: developer mode unless the last mode option is `-F`; board `"m1s"` unless `-B` is given; UUID and UUID bit present iff `-u` is given; no undefined bit set |
| `EfuseOptions.Expanded` | efuse_control.c:171-174 | after the force expansion, the force bit implies the erase and write bits; the force bit is unchanged; no bit is cleared; no bit other than erase and write changes; without force nothing changes |
| `EfuseOptions.ExpandedIdempotent` | efuse_control.c:171-174 | expanding twice gives the same mask as expanding once |
| `EfuseOptions.Options.constructor` | efuse_control.c:68-71 | the globals start with no bit set, board `"m1s"` and no UUID |
| `EfuseOptions.Options.ParseOpts` | efuse_control.c:99-157 | the loop returns false (usage, `exit(1)`) iff `Parsed` fails; otherwise it leaves the globals equal to `Parsed` of their old values |
| `EfuseOptions.Options.HandleOption` | efuse_control.c:121-155 | the `switch` for one option changes the globals as `Apply` says, and returns false in the `default` branch |
| `EfuseOptions.Options.UpperUuid` | efuse_control.c:140-141 | `-u` stores its argument after `toupperstr` has run over it |
| `EfuseOptions.Options.ExpandForce` | efuse_control.c:171-174 | the mask becomes `Expanded` of its old value |
| `Provisioning.Run` | efuse_control.c:160-228 | usage error (unknown option or `argc < 2`): status 1 and no library call; otherwise status 0 and exactly the trace `Provision` gives for the parsed, expanded globals |
| `Provisioning.ReadEfuse` | efuse_control.c:176-183 | the call-by-call read step of `main` makes exactly the calls of `ReadStep` |
| `Provisioning.EraseEfuse` | efuse_control.c:184-188 | the call-by-call erase step of `main` makes exactly the calls of `EraseStep` |
| `Provisioning.WriteEfuse` | efuse_control.c:190-217 | the write step makes the calls of `WriteStep`, given that the `-u` UUID fits `mac_uuid` when the write step is requested |
| `Provisioning.PrintMac` | efuse_control.c:219-226 | the call-by-call print step of `main` makes exactly the calls of `PrintStep` |
| `Provisioning.TagIn` | efuse_control.c:176-226 | an event belongs to a step's part of the trace iff it has that step's phase and that step's action |
| `Provisioning.InProvision` | efuse_control.c:176-226 | every event of the run belongs to the step its phase names |
| `Provisioning.OtherStepsQuiet` | efuse_control.c:176-188 | the read, erase and print steps never write, never ask the server and never run the validity check |
| `Provisioning.WriteNewContents` | efuse_control.c:196-214 | once the eFuse is blank: a write stores the `-u` UUID, or the server's upper-cased UUID that passed the validity check; a server request happens only without `-u`, to the endpoint the factory bit picks, for the configured board |
| `Provisioning.WriteStepContents` | efuse_control.c:190-217 | the write step runs only with the write bit; a write, server request or write confirmation needs a successful re-read that fails the validity check; a write's UUID and a request's endpoint follow `WriteNewContents` |
| `Provisioning.WriteGuard` | efuse_control.c:190-195 | a write happens only in the write step and only if the re-read succeeded and its UUID failed the validity check |
| `Provisioning.AlreadyWritten` | efuse_control.c:192-194 | if the re-read finds a valid UUID, the run reports "already written" and neither writes nor asks the server |
| `Provisioning.ExplicitUuidBypassesServer` | efuse_control.c:196-200 | with `-u` there is no server request; every write stores the given UUID; a write is made whenever the eFuse is found blank |
| `Provisioning.ServerRequestRule` | efuse_control.c:201-206 | a server request happens only without `-u`; it goes to the factory server iff the factory bit is set; it names the configured board; it is made whenever a write finds the eFuse blank without `-u` |
| `Provisioning.ServerUuidWritten` | efuse_control.c:205-212 | without `-u`, a written UUID is the server's reply upper-cased; it passed the validity check first and contains no lower-case letter |
| `Provisioning.RankInSegments` | efuse_control.c:176-226 | in a trace made of read, erase, write and print segments, an event's rank is that of its segment |
| `Provisioning.StepsInOrder` | efuse_control.c:176-226 | along the trace, the steps never go backwards in the order read, erase, write, print |
| `Provisioning.StepRunsIffRequested` | efuse_control.c:176-226 | a step appears in the trace iff its bit is set |
| `Provisioning.ProvisionReadsStepBits` | efuse_control.c:171-226 | the run depends on the mask only through the four step bits and the factory bit |
| `Provisioning.ForceActsAsEraseWrite` | efuse_control.c:171-174 | after expansion, a mask with `-f` runs exactly as the same mask with `-e -w` |

## Left out

- `getopt_long` is not modelled. The input is the stream of `(option
  character, argument)` pairs it returns. A `-B` or `-u` without an argument
  comes back as an unrecognised character, so it is a usage error in the
  model too. `argc` is a separate input.
- The internals of `efuse_control`, `efuse_valid_check`, `efuse_get_mac`,
  `mac_server_request`, `nlp_init` and `nlp_printf` are foreign code. Their
  results are the fields of `Env`. Validity is a total function of the UUID.
- The text of `print_usage` and of the confirmation lines is left out. A
  confirmation appears in the trace as a `Report…` action carrying the values
  it prints. The MAC string is not recorded.
- The MAC derived by `efuse_get_mac`, and the payload sent to the printer,
  are not modelled. The print step reads `mac_uuid` even when no earlier
  step filled it (efuse_control.c:162, 219-222). The model records only the
  calls for that step.
- The confirmation line names the server as `server ? "FACTORY" :
  "DEVELOPER"`. This is correct only if `MAC_SERVER_DEVELOPER` is 0 and
  `MAC_SERVER_FACTORY` is not. Their values are in a header that is not part
  of this model. The model reports the endpoint it chose.
- `Provisioning.WriteEfuse` requires the `-u` UUID to fit the
  `EFUSE_SIZE_M1S` characters of `mac_uuid` (`uuidCapacity`, a parameter
  because the constant is not part of this model) whenever the write step is
  requested, although the copy runs only once the eFuse is found blank. The unbounded copy at
  efuse_control.c:198 would overflow otherwise; the overflow is not modelled.
- Apart from that copy, `mac_uuid` is a string value, so each `memset` is
  an assignment of the empty string. The reply of `mac_server_request`
  arrives as a text (`CText`).
- `toupperstr` upper-cases `optarg` inside `argv`. The model copies the
  argument into a fresh NUL-terminated buffer and runs `ToUpperStr` over
  that. The alias between `argv` and `OPT_EFUSE_UUID` is not modelled.
- `toupper`/`tolower` act only on ASCII letters, as in the C locale. Other
  locales, and negative `char` values (undefined for `toupper`), are left out.
- `OPT_CONTROL` is a 32-bit `unsigned int`. The model uses 8 bits
  (`EfuseOptions.Mask`). All bits the program defines fit in 8 bits, and the
  mask starts at 0.
- `int i, c = strlen(p)` would overflow for strings longer than `INT_MAX`.
  The model's indices are unbounded.
