/** The Process object: attributes are read on first use and kept in its fields. */
module Processes {
  import opened Text
  import opened Snapshots

  class Process {
    const number: nat
    const files: Option<Snapshot>
    const pid: string
    const present: bool
    var name: string
    var parentPid: string
    var uid: string
    var gid: string
    var executePath: string
    var command: string
    var virtualMemory: string
    var physicalMemory: string
    var cpuTime: string
    var cpuUsage: string
    var networkIn: string
    var networkOut: string
    var readKBs: string
    var writeKBs: string

    /** A cached field is still empty or holds the attribute's value. */
    predicate Cached(field: string, a: Attr)
      requires files.Some? && files.value.Defined()
    {
      field == "" || Ok(field) == files.value.Value(number, a)
    }

    ghost predicate Valid()
      reads this
    {
      && pid == Digits(number)
      && present && files.Some? && files.value.Defined()
      && Cached(name, Name)
      && Cached(parentPid, ParentPid)
      && Cached(uid, Uid)
      && Cached(gid, Gid)
      && Cached(executePath, ExecutePath)
      && Cached(command, Command)
      && Cached(virtualMemory, VirtualMemory)
      && Cached(physicalMemory, PhysicalMemory)
      && Cached(cpuTime, CpuTime)
      && Cached(cpuUsage, CpuUsage)
      && Cached(networkIn, NetworkIn)
      && Cached(networkOut, NetworkOut)
      && Cached(readKBs, ReadKBs)
      && Cached(writeKBs, WriteKBs)
    }

    /** The process exists when its directory does; the snapshot stands for that directory. */
    constructor (number: nat, files: Option<Snapshot>)
      ensures this.number == number && this.files == files
      ensures present == files.Some?
      ensures files.Some? && files.value.Defined() ==> Valid()
    {
      this.number, this.files := number, files;
      pid, present := Digits(number), files.Some?;
      name, parentPid, uid, gid, executePath, command := "", "", "", "", "", "";
      virtualMemory, physicalMemory, cpuTime, cpuUsage := "", "", "", "";
      networkIn, networkOut, readKBs, writeKBs := "", "", "", "";
    }

    method GetName() returns (r: string)
      requires Valid()
      modifies this
      ensures Valid() && Ok(r) == files.value.Value(number, Name)
    {
      if name == "" {
        name := OrNull(files.value.comm);
      }
      r := name;
    }

    method GetParentPid() returns (r: Outcome<string>)
      requires Valid()
      modifies this
      ensures r == files.value.Value(number, ParentPid)
      ensures r.Ok? ==> Valid()
    {
      hide StoUL, Thousandths;
      if parentPid == "" {
        var read := ReadStatFile();
        if !read {
          return Throws;
        }
      }
      r := Ok(parentPid);
    }

    method GetCpuTime() returns (r: Outcome<string>)
      requires Valid()
      modifies this
      ensures r == files.value.Value(number, CpuTime)
      ensures r.Ok? ==> Valid()
    {
      hide StoUL, Thousandths;
      if cpuTime == "" {
        var read := ReadStatFile();
        if !read {
          return Throws;
        }
        cpuTime := OrNull(cpuTime);
      }
      r := Ok(cpuTime);
    }

    /** Fills both fields taken from stat; false stands for the exception of std::stoul. */
    method ReadStatFile() returns (read: bool)
      requires Valid()
      modifies this`parentPid, this`cpuTime
      ensures read == files.value.TimesReadable()
      ensures read ==> parentPid == files.value.stat[3] && cpuTime == Thousandths(files.value.CpuTicks())
    {
      hide StoUL, Thousandths;
      var tokens := files.value.stat;
      var count := 0;
      var utime, stime := 0, 0;
      while count < |tokens|
        invariant 0 <= count <= 15
        invariant count > 3 ==> parentPid == tokens[3]
        invariant count > 14 ==> StoUL(tokens[14]) == Ok(utime)
      {
        var token := tokens[count];
        if count == 3 {
          parentPid := token;
        } else if count == 14 {
          var time := StoUL(token);
          if time.Throws? {
            return false;
          }
          utime := time.value;
        } else if count == 15 {
          var time := StoUL(token);
          if time.Throws? {
            return false;
          }
          stime := time.value;
          break;
        }
        count := count + 1;
      }
      cpuTime := Thousandths((utime + stime) % TWO_TO_64);
      read := true;
    }

    method GetUid() returns (r: string)
      requires Valid()
      modifies this
      ensures Valid() && Ok(r) == files.value.Value(number, Uid)
    {
      if uid == "" {
        ReadStatusFile();
      }
      r := uid;
    }

    method GetGid() returns (r: string)
      requires Valid()
      modifies this
      ensures Valid() && Ok(r) == files.value.Value(number, Gid)
    {
      if gid == "" {
        ReadStatusFile();
      }
      r := gid;
    }

    /** Lines 8 and 9 of status; a field whose line is missing keeps its content. */
    method ReadStatusFile()
      requires Valid()
      modifies this`uid, this`gid
      ensures uid == if 8 < |files.value.status| then StatusWord(files.value.status, 8) else old(uid)
      ensures gid == if 9 < |files.value.status| then StatusWord(files.value.status, 9) else old(gid)
    {
      var lines := files.value.status;
      var idx := 0;
      while idx < |lines|
        invariant 0 <= idx <= |lines| && idx <= 10
        invariant uid == if idx > 8 then StatusWord(lines, 8) else old(uid)
        invariant gid == if idx > 9 then StatusWord(lines, 9) else old(gid)
        decreases |lines| - idx
      {
        if idx == 8 || idx == 9 {
          var token := OrNull(SecondWord(lines[idx]));
          if idx == 8 {
            uid := token;
          } else {
            gid := token;
          }
        } else if idx > 9 {
          break;
        }
        idx := idx + 1;
      }
    }

    method GetExecutePath() returns (r: string)
      requires Valid()
      modifies this
      ensures Valid() && Ok(r) == files.value.Value(number, ExecutePath)
    {
      if executePath == "" && files.value.exe.Some? {
        var target := files.value.exe.value;
        executePath := OrNull(target[..Min(|target|, 4999)]);
      }
      r := executePath;
    }

    method GetCommand() returns (r: string)
      requires Valid()
      modifies this
      ensures Valid() && Ok(r) == files.value.Value(number, Command)
    {
      if command == "" {
        if files.value.cmdline.None? {
          return "";
        }
        command := OrNull(EscapeQuotes(files.value.cmdline.value));
      }
      r := command;
    }

    method GetVirtualMemory() returns (r: string)
      requires Valid()
      modifies this
      ensures Valid() && Ok(r) == files.value.Value(number, VirtualMemory)
    {
      if virtualMemory == "" {
        virtualMemory := OrNull(files.value.statm);
      }
      r := virtualMemory;
    }

    method GetPhysicalMemory() returns (r: string)
      requires Valid()
      modifies this
      ensures Valid() && Ok(r) == files.value.Value(number, PhysicalMemory)
    {
      if physicalMemory == "" {
        physicalMemory := OrNull(SecondWord(files.value.smaps));
      }
      r := physicalMemory;
    }

    method GetCpuUsage() returns (r: string)
      requires Valid()
      modifies this
      ensures Valid() && Ok(r) == files.value.Value(number, CpuUsage)
    {
      if cpuUsage != "" {
        return cpuUsage;
      }
      var lines := files.value.ps;
      var usage := "";
      var lineNumber := 0;
      while lineNumber < |lines|
        invariant 0 <= lineNumber <= 1 && lineNumber <= |lines|
        invariant usage == ""
      {
        if lineNumber == 1 {
          usage := lines[lineNumber];
          break;
        }
        lineNumber := lineNumber + 1;
      }
      if |usage| > 2 {
        usage := usage[..|usage| - 1];
      }
      if |usage| > 0 {
        usage := usage[1..];
      }
      cpuUsage := OrNull(usage);
      r := cpuUsage;
    }

    method GetNetworkIn() returns (r: string)
      requires Valid()
      modifies this
      ensures Valid() && Ok(r) == files.value.Value(number, NetworkIn)
    {
      hide Snapshot.Value;
      if networkIn == "" {
        ReadNetworkStat();
        networkIn := OrNull(networkIn);
      }
      r := networkIn;
    }

    method GetNetworkOut() returns (r: string)
      requires Valid()
      modifies this
      ensures Valid() && Ok(r) == files.value.Value(number, NetworkOut)
    {
      hide Snapshot.Value;
      if networkOut == "" {
        ReadNetworkStat();
        networkOut := OrNull(networkOut);
      }
      r := networkOut;
    }

    method ReadNetworkStat()
      requires Valid()
      modifies this`networkIn, this`networkOut
      ensures networkIn != "" && Ok(networkIn) == files.value.Value(number, NetworkIn)
      ensures networkOut != "" && Ok(networkOut) == files.value.Value(number, NetworkOut)
    {
      hide Cached, KBs;
      var totalRxBytes, totalTxBytes := SumTraffic(files.value.net);
      networkIn, networkOut := KBs(totalRxBytes), KBs(totalTxBytes);
    }

    method GetReadKBs() returns (r: string)
      requires Valid()
      modifies this
      ensures Valid() && Ok(r) == files.value.Value(number, ReadKBs)
    {
      hide Snapshot.Value;
      if readKBs == "" {
        ReadIoFile();
        readKBs := OrNull(readKBs);
      }
      r := readKBs;
    }

    method GetWriteKBs() returns (r: string)
      requires Valid()
      modifies this
      ensures Valid() && Ok(r) == files.value.Value(number, WriteKBs)
    {
      hide Snapshot.Value;
      if writeKBs == "" {
        ReadIoFile();
        writeKBs := OrNull(writeKBs);
      }
      r := writeKBs;
    }

    method ReadIoFile()
      requires Valid()
      modifies this`readKBs, this`writeKBs
      ensures readKBs != "" && Ok(readKBs) == files.value.Value(number, ReadKBs)
      ensures writeKBs != "" && Ok(writeKBs) == files.value.Value(number, WriteKBs)
    {
      hide Cached, KBs, UpToWrite, LastBytes;
      var readBytes, writeBytes := ScanIo(files.value.io);
      readKBs, writeKBs := KBs(readBytes), KBs(writeBytes);
    }

    /** Whatever getters ran before, an attribute reads as its snapshot value. */
    method Get(a: Attr) returns (r: Outcome<string>)
      requires Valid()
      modifies this
      ensures r == files.value.Value(number, a)
      ensures r.Ok? ==> Valid()
    {
      var s: string;
      match a {
        case ParentPid => r := GetParentPid(); return;
        case CpuTime => r := GetCpuTime(); return;
        case Pid => s := pid;
        case Name => s := GetName();
        case Uid => s := GetUid();
        case Gid => s := GetGid();
        case ExecutePath => s := GetExecutePath();
        case Command => s := GetCommand();
        case VirtualMemory => s := GetVirtualMemory();
        case PhysicalMemory => s := GetPhysicalMemory();
        case CpuUsage => s := GetCpuUsage();
        case NetworkIn => s := GetNetworkIn();
        case NetworkOut => s := GetNetworkOut();
        case ReadKBs => s := GetReadKBs();
        case WriteKBs => s := GetWriteKBs();
      }
      r := Ok(s);
    }
  }

  lemma TotalStep(lines: seq<NetLine>, i: nat, kind: string)
    requires i < |lines|
    ensures Total(lines[..i + 1], kind) % TWO_TO_64
         == (Total(lines[..i], kind) % TWO_TO_64 + (if lines[i].kind == kind then lines[i].bytes else 0)) % TWO_TO_64
  {
    assert lines[..i + 1][..i] == lines[..i];
  }

  /** Sums the bytes of each direction in 64-bit counters. */
  method SumTraffic(lines: seq<NetLine>) returns (totalRxBytes: nat, totalTxBytes: nat)
    ensures totalRxBytes == Total(lines, "RX") % TWO_TO_64
    ensures totalTxBytes == Total(lines, "TX") % TWO_TO_64
  {
    totalRxBytes, totalTxBytes := 0, 0;
    for i := 0 to |lines|
      invariant totalRxBytes == Total(lines[..i], "RX") % TWO_TO_64
      invariant totalTxBytes == Total(lines[..i], "TX") % TWO_TO_64
    {
      TotalStep(lines, i, "RX");
      TotalStep(lines, i, "TX");
      if lines[i].kind == "RX" {
        totalRxBytes := (totalRxBytes + lines[i].bytes) % TWO_TO_64;
      } else if lines[i].kind == "TX" {
        totalTxBytes := (totalTxBytes + lines[i].bytes) % TWO_TO_64;
      }
    }
    assert lines[..|lines|] == lines;
  }

  lemma LastOfNone(field: string)
    ensures LastBytes([], field) == 0
  {
  }

  lemma LastStep(lines: seq<IoLine>, next: IoLine, field: string)
    ensures LastBytes(lines + [next], field) == if next.field == field then next.bytes else LastBytes(lines, field)
  {
    assert (lines + [next])[..|lines|] == lines;
  }

  lemma UpToStep(seen: seq<IoLine>, lines: seq<IoLine>, i: nat)
    requires i < |lines|
    ensures seen + UpToWrite(lines[i..]) ==
            seen + [lines[i]] + (if lines[i].field == "write_bytes:" then [] else UpToWrite(lines[i + 1..]))
  {
    assert lines[i..][1..] == lines[i + 1..];
    if lines[i].field != "write_bytes:" {
      assert seen + ([lines[i]] + UpToWrite(lines[i + 1..])) == seen + [lines[i]] + UpToWrite(lines[i + 1..]);
    }
  }

  lemma UpToEnd(lines: seq<IoLine>)
    ensures UpToWrite(lines[|lines|..]) == []
  {
  }

  /** The first write_bytes line ends the search, so a later read_bytes line is not seen. */
  method ScanIo(lines: seq<IoLine>) returns (readBytes: nat, writeBytes: nat)
    ensures readBytes == LastBytes(UpToWrite(lines), "read_bytes:")
    ensures writeBytes == LastBytes(UpToWrite(lines), "write_bytes:")
  {
    hide LastBytes, UpToWrite;
    readBytes, writeBytes := 0, 0;
    ghost var seen := [];
    LastOfNone("read_bytes:");
    LastOfNone("write_bytes:");
    assert lines[0..] == lines && [] + UpToWrite(lines) == UpToWrite(lines);
    for i := 0 to |lines|
      invariant seen == lines[..i]
      invariant UpToWrite(lines) == seen + UpToWrite(lines[i..])
      invariant readBytes == LastBytes(seen, "read_bytes:")
      invariant writeBytes == 0 == LastBytes(seen, "write_bytes:")
    {
      UpToStep(seen, lines, i);
      LastStep(seen, lines[i], "read_bytes:");
      LastStep(seen, lines[i], "write_bytes:");
      seen := seen + [lines[i]];
      if lines[i].field == "read_bytes:" {
        readBytes := lines[i].bytes;
      } else if lines[i].field == "write_bytes:" {
        writeBytes := lines[i].bytes;
        break;
      }
    }
    UpToEnd(lines);
    assert UpToWrite(lines) == seen;
  }
}
