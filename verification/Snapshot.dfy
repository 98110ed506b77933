/**
 * What the kernel and the helper commands say about one process, as one
 * immutable record, and the value of every attribute as a function of it.
 */
module Snapshots {
  import opened Text

  datatype Attr =
    | Name | Pid | ParentPid | Uid | Gid | ExecutePath | Command
    | VirtualMemory | PhysicalMemory | CpuTime | CpuUsage
    | NetworkIn | NetworkOut | ReadKBs | WriteKBs

  /** The attribute a configuration names. */
  function AttrNamed(name: string): Option<Attr> {
    match name
    case "name" => Some(Name)
    case "pid" => Some(Pid)
    case "parentPid" => Some(ParentPid)
    case "uid" => Some(Uid)
    case "gid" => Some(Gid)
    case "executePath" => Some(ExecutePath)
    case "command" => Some(Command)
    case "virtualMemory" => Some(VirtualMemory)
    case "physicalMemory" => Some(PhysicalMemory)
    case "cpuTime" => Some(CpuTime)
    case "cpuUsage" => Some(CpuUsage)
    case "networkIn" => Some(NetworkIn)
    case "networkOut" => Some(NetworkOut)
    case "readKBs" => Some(ReadKBs)
    case "writeKBs" => Some(WriteKBs)
    case _ => None
  }

  /** A line of /proc/[pid]/io: a label and a byte count. */
  datatype IoLine = IoLine(field: string, bytes: nat)

  /** A packet line of ifconfig: "RX", "TX" or something else, and a byte count. */
  datatype NetLine = NetLine(kind: string, bytes: nat)

  datatype Snapshot = Snapshot(
    comm: string,             // first line of comm
    stat: seq<string>,        // words of the first line of stat
    status: seq<seq<string>>, // words of each line of status
    exe: Option<string>,      // target of the exe link, if it can be read
    cmdline: Option<string>,  // first line of cmdline, if it can be opened
    statm: string,            // text of statm before its first space
    smaps: seq<string>,       // words of the second line of smaps_rollup
    ps: seq<string>,          // the output of ps as fgets reads it, piece by piece
    io: seq<IoLine>,
    net: seq<NetLine>)
  {
    /** With fewer words the code would add up uninitialised variables. */
    predicate Defined() {
      |stat| >= 16
    }

    /** Both processor times are accepted by std::stoul. */
    predicate TimesReadable()
      requires Defined()
    {
      StoUL(stat[14]).Ok? && StoUL(stat[15]).Ok?
    }

    function CpuTicks(): nat
      requires Defined() && TimesReadable()
    {
      (StoUL(stat[14]).value + StoUL(stat[15]).value) % TWO_TO_64
    }

    /** The value of an attribute for the process with this pid; only the two taken from stat can throw. */
    function Value(pid: nat, a: Attr): Outcome<string>
      requires Defined()
    {
      match a
      case Name => Ok(OrNull(comm))
      case Pid => Ok(Digits(pid))
      case ParentPid => if TimesReadable() then Ok(stat[3]) else Throws
      case Uid => Ok(StatusWord(status, 8))
      case Gid => Ok(StatusWord(status, 9))
      case ExecutePath => Ok(if exe.Some? then OrNull(exe.value[..Min(|exe.value|, 4999)]) else "")
      case Command => Ok(if cmdline.Some? then OrNull(EscapeQuotes(cmdline.value)) else "")
      case VirtualMemory => Ok(OrNull(statm))
      case PhysicalMemory => Ok(OrNull(SecondWord(smaps)))
      case CpuTime => if TimesReadable() then Ok(Thousandths(CpuTicks())) else Throws
      case CpuUsage => Ok(OrNull(if |ps| > 1 then TrimUsage(ps[1]) else ""))
      case NetworkIn => Ok(KBs(Total(net, "RX") % TWO_TO_64))
      case NetworkOut => Ok(KBs(Total(net, "TX") % TWO_TO_64))
      case ReadKBs => Ok(KBs(LastBytes(UpToWrite(io), "read_bytes:")))
      case WriteKBs => Ok(KBs(LastBytes(UpToWrite(io), "write_bytes:")))
    }
  }

  function Min(a: nat, b: nat): nat {
    if a < b then a else b
  }

  /** NULLIFY. */
  function OrNull(s: string): (r: string)
    ensures r != ""
  {
    if s == "" then "null" else s
  }

  /** What two extractions into the same string leave in it. */
  function SecondWord(words: seq<string>): string {
    if |words| >= 2 then words[1] else if |words| == 1 then words[0] else ""
  }

  function StatusWord(status: seq<seq<string>>, line: nat): string {
    if line < |status| then OrNull(SecondWord(status[line])) else ""
  }

  /** regex_replace of each quote by a backslash and a quote; backslashes stay as they are. */
  function EscapeQuotes(s: string): string {
    if s == "" then ""
    else if s[0] == '"' then "\\\"" + EscapeQuotes(s[1..])
    else [s[0]] + EscapeQuotes(s[1..])
  }

  /** n / 1000.0 printed with three decimals. */
  function Thousandths(n: nat): (s: string)
    ensures s != ""
  {
    Digits(n / 1000) + "." +
    [DigitChar(n / 100 % 10), DigitChar(n / 10 % 10), DigitChar(n % 10)]
  }

  /** Drops the newline and the leading blank of a line of ps. */
  function TrimUsage(line: string): string {
    var s := if |line| > 2 then line[..|line| - 1] else line;
    if s == "" then "" else s[1..]
  }

  /** Bytes to kilobytes: the nearest number, half rounded up. */
  function RoundedKB(bytes: nat): (k: nat)
    ensures -512 < 1024 * k - bytes <= 512
  {
    (bytes + 512) / 1024
  }

  function KBs(bytes: nat): (s: string)
    ensures s != ""
  {
    Digits(RoundedKB(bytes))
  }

  function Total(lines: seq<NetLine>, kind: string): nat {
    if lines == [] then 0
    else
      var last := lines[|lines| - 1];
      Total(lines[..|lines| - 1], kind) + (if last.kind == kind then last.bytes else 0)
  }

  /** The lines up to and including the first write_bytes line. */
  function UpToWrite(lines: seq<IoLine>): seq<IoLine> {
    if lines == [] then []
    else if lines[0].field == "write_bytes:" then [lines[0]]
    else [lines[0]] + UpToWrite(lines[1..])
  }

  function LastBytes(lines: seq<IoLine>, field: string): nat {
    if lines == [] then 0
    else
      var last := lines[|lines| - 1];
      if last.field == field then last.bytes else LastBytes(lines[..|lines| - 1], field)
  }
}
