/** SYSImpl: disk and network throughput from counters that are read again and again
    (SYSImpl.cpp). Lines are modelled after their fields have been parsed; the counters are the
    unsigned 64-bit values the kernel prints. */
module SysImpl {
  import opened CounterDeltas
  import opened Decimal

  datatype DiskState = DiskState(sectorsRead: nat, sectorsWritten: nat, timeDoingIO: nat)
  datatype NetState = NetState(bytesRx: nat, bytesTx: nat)

  datatype DiskLine = DiskLine(devName: string, state: DiskState)
  datatype NetLine = NoColon | Stats(beforeColon: string, state: NetState)

  // A line of the memory file: a key, with its colon, and kilobytes.
  datatype MemLine = MemLine(key: string, value: int)

  // What the three files hold when they are read for one label.
  datatype Snapshot = Snapshot(mem: seq<MemLine>, disk: seq<DiskLine>, net: seq<NetLine>)

  datatype Memory = Memory(totalGB: real, usedGB: real, utilizationPercent: real)

  datatype Metrics = Metrics(
    memory: Memory,
    diskReadMBps: real, diskWriteMBps: real, maxDiskUtilPercent: real,
    netDownloadMBps: real, netUploadMBps: real, systemPowerWatts: real)

  predicate IsPhysicalDisk(name: string) {
    if "loop" <= name || "ram" <= name || "sr" <= name then false
    else if "dm-" <= name then false
    else if ("sd" <= name || "vd" <= name) && IsDigit(name[|name| - 1]) then false
    else !("nvme" <= name && 'p' in name)
  }

  function TrimLeft(s: string): string {
    if s != [] && s[0] == ' ' then TrimLeft(s[1..]) else s
  }

  // --- The counters, one by one ------------------------------------------------------------------

  datatype Quantity = DiskRead | DiskWritten | NetDown | NetUp

  // Disks count sectors of 512 bytes, interfaces count bytes.
  function Bytes(q: Quantity, units: int): int {
    if q.DiskRead? || q.DiskWritten? then 512 * units else units
  }

  function DiskValue(s: DiskState, q: Quantity): nat {
    if q.DiskRead? then s.sectorsRead else s.sectorsWritten
  }

  function NetValue(s: NetState, q: Quantity): nat {
    if q.NetDown? then s.bytesRx else s.bytesTx
  }

  // The lines of a snapshot that count towards a quantity: physical disks; interfaces other than lo.
  function DiskReadings(lines: seq<DiskLine>, q: Quantity): seq<Reading> {
    if lines == [] then []
    else
      var line := lines[|lines| - 1];
      var rest := DiskReadings(lines[..|lines| - 1], q);
      if IsPhysicalDisk(line.devName) then rest + [Reading(line.devName, DiskValue(line.state, q))] else rest
  }

  predicate CountsAsInterface(line: NetLine) {
    line.Stats? && TrimLeft(line.beforeColon) != "lo"
  }

  function NetReadings(lines: seq<NetLine>, q: Quantity): seq<Reading> {
    if lines == [] then []
    else
      var line := lines[|lines| - 1];
      var rest := NetReadings(lines[..|lines| - 1], q);
      if CountsAsInterface(line) then rest + [Reading(TrimLeft(line.beforeColon), NetValue(line.state, q))] else rest
  }

  // The first two lines of the network file are its heading.
  function Body(lines: seq<NetLine>): seq<NetLine> {
    if |lines| <= 2 then [] else lines[2..]
  }

  function Readings(snap: Snapshot, q: Quantity): seq<Reading> {
    if q.DiskRead? || q.DiskWritten? then DiskReadings(snap.disk, q) else NetReadings(Body(snap.net), q)
  }

  function Rate(m: Metrics, q: Quantity): real {
    match q
    case DiskRead => m.diskReadMBps
    case DiskWritten => m.diskWriteMBps
    case NetDown => m.netDownloadMBps
    case NetUp => m.netUploadMBps
  }

  // --- State -----------------------------------------------------------------------------------

  // The fields lastTime, lastDiskStates and lastNetStates.
  datatype SysState = SysState(lastTime: real, disk: map<string, DiskState>, net: map<string, NetState>)

  ghost function DiskColumn(states: map<string, DiskState>, q: Quantity): map<string, nat> {
    map n | n in states :: DiskValue(states[n], q)
  }

  ghost function NetColumn(states: map<string, NetState>, q: Quantity): map<string, nat> {
    map n | n in states :: NetValue(states[n], q)
  }

  ghost function Held(s: SysState, q: Quantity): map<string, nat> {
    if q.DiskRead? || q.DiskWritten? then DiskColumn(s.disk, q) else NetColumn(s.net, q)
  }

  function DiskStates(lines: seq<DiskLine>): map<string, DiskState> {
    if lines == [] then map[]
    else
      var line := lines[|lines| - 1];
      var rest := DiskStates(lines[..|lines| - 1]);
      if IsPhysicalDisk(line.devName) then rest[line.devName := line.state] else rest
  }

  function NetStates(lines: seq<NetLine>): map<string, NetState> {
    if lines == [] then map[]
    else
      var line := lines[|lines| - 1];
      var rest := NetStates(lines[..|lines| - 1]);
      if CountsAsInterface(line) then rest[TrimLeft(line.beforeColon) := line.state] else rest
  }

  function StateAfter(now: real, snap: Snapshot): SysState {
    SysState(now, DiskStates(snap.disk), NetStates(Body(snap.net)))
  }

  lemma {:induction false} StateOfMore(lines: seq<Reading>, name: string, value: nat)
    ensures StateOf(lines + [Reading(name, value)]) == StateOf(lines)[name := value]
  {
  }

  lemma {:induction false} DiskColumnOfMore(states: map<string, DiskState>, name: string, state: DiskState,
                                            q: Quantity)
    ensures DiskColumn(states[name := state], q) == DiskColumn(states, q)[name := DiskValue(state, q)]
  {
  }

  lemma {:induction false} NetColumnOfMore(states: map<string, NetState>, name: string, state: NetState, q: Quantity)
    ensures NetColumn(states[name := state], q) == NetColumn(states, q)[name := NetValue(state, q)]
  {
  }

  lemma {:induction false} DiskStatesHoldReadings(lines: seq<DiskLine>, q: Quantity)
    ensures DiskColumn(DiskStates(lines), q) == StateOf(DiskReadings(lines, q))
  {
    if lines != [] {
      var rest, line := lines[..|lines| - 1], lines[|lines| - 1];
      DiskStatesHoldReadings(rest, q);
      StateOfMore(DiskReadings(rest, q), line.devName, DiskValue(line.state, q));
      DiskColumnOfMore(DiskStates(rest), line.devName, line.state, q);
    }
  }

  lemma {:induction false} NetStatesHoldReadings(lines: seq<NetLine>, q: Quantity)
    ensures NetColumn(NetStates(lines), q) == StateOf(NetReadings(lines, q))
  {
    if lines != [] {
      var rest, line := lines[..|lines| - 1], lines[|lines| - 1];
      NetStatesHoldReadings(rest, q);
      if CountsAsInterface(line) {
        StateOfMore(NetReadings(rest, q), TrimLeft(line.beforeColon), NetValue(line.state, q));
        NetColumnOfMore(NetStates(rest), TrimLeft(line.beforeColon), line.state, q);
      }
    }
  }

  // What is kept for the next sample is the last snapshot's value of every counter.
  lemma {:induction false} KeptIsLastSnapshot(now: real, snap: Snapshot, q: Quantity)
    ensures Held(StateAfter(now, snap), q) == StateOf(Readings(snap, q))
  {
    DiskStatesHoldReadings(snap.disk, q);
    NetStatesHoldReadings(Body(snap.net), q);
  }

  // --- What is read, by name ---------------------------------------------------------------------

  // The text is the name with spaces in front.
  ghost predicate IsPadded(text: string, name: string) {
    exists k :: 0 <= k <= |text| && IsPaddedBy(text, k, name)
  }

  predicate IsPaddedBy(text: string, k: nat, name: string)
    requires k <= |text|
  {
    text[k..] == name && (name == "" || name[0] != ' ') && forall i :: 0 <= i < k ==> text[i] == ' '
  }

  lemma {:induction false} TrimmedIsPadded(text: string) returns (k: nat)
    ensures k <= |text| && IsPaddedBy(text, k, TrimLeft(text))
  {
    if text != [] && text[0] == ' ' {
      var k' := TrimmedIsPadded(text[1..]);
      k := k' + 1;
      assert text[k..] == text[1..][k'..];
      assert forall i :: 1 <= i < k ==> text[i] == text[1..][i - 1];
    } else {
      k := 0;
    }
  }

  lemma {:induction false} PaddingIsUnique(text: string, j: nat, k: nat, a: string, b: string)
    requires j <= |text| && k <= |text| && IsPaddedBy(text, j, a) && IsPaddedBy(text, k, b)
    ensures a == b
  {
  }

  lemma {:induction false} TrimLeftIs(text: string, name: string)
    ensures TrimLeft(text) == name <==> IsPadded(text, name)
  {
    var k := TrimmedIsPadded(text);
    if IsPadded(text, name) {
      var j :| 0 <= j <= |text| && IsPaddedBy(text, j, name);
      PaddingIsUnique(text, j, k, name, TrimLeft(text));
    }
  }

  lemma {:induction false} NetReadingIn(lines: seq<NetLine>, q: Quantity, r: Reading)
    ensures r in NetReadings(lines, q)
       <==> exists i :: 0 <= i < |lines| && CountsAsInterface(lines[i])
                        && r == Reading(TrimLeft(lines[i].beforeColon), NetValue(lines[i].state, q))
  {
    if lines != [] { NetReadingIn(lines[..|lines| - 1], q, r); }
  }

  lemma {:induction false} DiskReadingIn(lines: seq<DiskLine>, q: Quantity, r: Reading)
    ensures r in DiskReadings(lines, q)
       <==> exists i :: 0 <= i < |lines| && IsPhysicalDisk(lines[i].devName)
                        && r == Reading(lines[i].devName, DiskValue(lines[i].state, q))
  {
    if lines != [] { DiskReadingIn(lines[..|lines| - 1], q, r); }
  }

  // This line of the network file, which is not of its two-line heading, lists the interface.
  ghost predicate ListsInterface(lines: seq<NetLine>, i: nat, name: string) {
    2 <= i < |lines| && lines[i].Stats? && IsPadded(lines[i].beforeColon, name)
  }

  lemma {:induction false} LineOfBody(lines: seq<NetLine>, i: nat, name: string)
    requires 2 <= i < |lines|
    ensures Body(lines)[i - 2] == lines[i]
    ensures ListsInterface(lines, i, name) <==> lines[i].Stats? && TrimLeft(lines[i].beforeColon) == name
  {
    if lines[i].Stats? { TrimLeftIs(lines[i].beforeColon, name); }
  }

  lemma {:induction false} InterfaceListed(snap: Snapshot, q: Quantity, name: string, value: nat)
    requires q == NetDown || q == NetUp
    ensures Reading(name, value) in Readings(snap, q)
       <==> name != "lo" && exists i: nat :: ListsInterface(snap.net, i, name) && NetValue(snap.net[i].state, q) == value
  {
    var lines, body := snap.net, Body(snap.net);
    NetReadingIn(body, q, Reading(name, value));
    if Reading(name, value) in Readings(snap, q) {
      var k :| 0 <= k < |body| && CountsAsInterface(body[k])
               && Reading(name, value) == Reading(TrimLeft(body[k].beforeColon), NetValue(body[k].state, q));
      LineOfBody(lines, k + 2, name);
    }
    if i: nat :| ListsInterface(lines, i, name) && NetValue(lines[i].state, q) == value && name != "lo" {
      LineOfBody(lines, i, name);
      assert CountsAsInterface(body[i - 2]);
    }
  }

  // What counts as received and sent: of every interface listed but lo, by its name without the
  // spaces before it, the bytes received and the bytes sent.
  lemma {:induction false} InterfacesByName(snap: Snapshot, name: string, value: nat)
    ensures Reading(name, value) in Readings(snap, NetDown)
       <==> name != "lo" && exists i: nat :: ListsInterface(snap.net, i, name) && snap.net[i].state.bytesRx == value
    ensures Reading(name, value) in Readings(snap, NetUp)
       <==> name != "lo" && exists i: nat :: ListsInterface(snap.net, i, name) && snap.net[i].state.bytesTx == value
  {
    InterfaceListed(snap, NetDown, name, value);
    InterfaceListed(snap, NetUp, name, value);
  }

  lemma {:induction false} DisksByName(snap: Snapshot, name: string, value: nat)
    ensures Reading(name, value) in Readings(snap, DiskRead)
       <==> IsPhysicalDisk(name)
            && exists i :: 0 <= i < |snap.disk| && snap.disk[i].devName == name && snap.disk[i].state.sectorsRead == value
    ensures Reading(name, value) in Readings(snap, DiskWritten)
       <==> IsPhysicalDisk(name)
            && exists i :: 0 <= i < |snap.disk| && snap.disk[i].devName == name && snap.disk[i].state.sectorsWritten == value
  {
    DiskReadingIn(snap.disk, DiskRead, Reading(name, value));
    DiskReadingIn(snap.disk, DiskWritten, Reading(name, value));
  }

  // Which names count as disks. A partition whose name does not start with sd, vd or nvme does, too.
  lemma {:induction false} WhichNamesAreDisks(name: string)
    ensures "loop" <= name || "ram" <= name || "sr" <= name || "dm-" <= name ==> !IsPhysicalDisk(name)
    ensures "sd" <= name || "vd" <= name ==> (IsPhysicalDisk(name) <==> !('0' <= name[|name| - 1] <= '9'))
    ensures "nvme" <= name ==> (IsPhysicalDisk(name) <==> 'p' !in name)
    ensures !("loop" <= name || "ram" <= name || "sr" <= name || "dm-" <= name || "sd" <= name || "vd" <= name || "nvme" <= name)
            ==> IsPhysicalDisk(name)
  {
    if "sd" <= name || "vd" <= name { assert name[1] == 'd'; }
    if "nvme" <= name { assert name[1] == 'v'; }
  }

  // --- Rates -------------------------------------------------------------------------------------

  function MBps(units: nat, q: Quantity, dt: real): real
    requires dt > 0.0
  {
    Bytes(q, units) as real / 1024.0 / 1024.0 / dt
  }

  // A disk counter counts sectors of 512 bytes.
  lemma {:induction false} DiskRate(sectors: nat, q: Quantity, dt: real)
    requires dt > 0.0 && (q == DiskRead || q == DiskWritten)
    ensures 512.0 * sectors as real / 1024.0 / 1024.0 / dt == MBps(sectors, q, dt)
  {
  }

  // How busy a disk was, in percent; timeDoingIO is in milliseconds.
  function Util(before: DiskState, after: DiskState, dt: real): real
    requires dt > 0.0
  {
    SubU64(after.timeDoingIO, before.timeDoingIO) as real / (dt * 1000.0) * 100.0
  }

  // A disk that was busy for some milliseconds out of dt seconds.
  lemma {:induction false} UtilIsTheBusyShare(before: DiskState, after: DiskState, dt: real)
    requires dt > 0.0 && before.timeDoingIO <= after.timeDoingIO < U64
    ensures Util(before, after, dt) * (10.0 * dt) == (after.timeDoingIO - before.timeDoingIO) as real
  {
    var busy := (after.timeDoingIO - before.timeDoingIO) as real;
    var share := busy / (dt * 1000.0);
    assert share * (dt * 1000.0) == busy;
  }

  // The busiest of the disks that were listed before.
  function MaxUtil(last: map<string, DiskState>, lines: seq<DiskLine>, dt: real): (r: real)
    requires dt > 0.0
    ensures r >= 0.0
  {
    if lines == [] then 0.0
    else
      var line := lines[|lines| - 1];
      var rest := MaxUtil(last, lines[..|lines| - 1], dt);
      if IsPhysicalDisk(line.devName) && line.devName in last && Util(last[line.devName], line.state, dt) > rest
      then Util(last[line.devName], line.state, dt) else rest
  }

  // The sums of readDisk and readNetwork, line by line.
  function DiskTotal(last: map<string, DiskState>, lines: seq<DiskLine>, q: Quantity): nat {
    if lines == [] then 0
    else
      var line := lines[|lines| - 1];
      DiskTotal(last, lines[..|lines| - 1], q)
      + (if IsPhysicalDisk(line.devName) && line.devName in last
         then SubU64(DiskValue(line.state, q), DiskValue(last[line.devName], q)) else 0)
  }

  // What one more line adds.
  lemma {:induction false} DiskLineAdds(last: map<string, DiskState>, lines: seq<DiskLine>, i: nat, dt: real)
    requires i < |lines| && dt > 0.0
    ensures var line := lines[i];
            var known := IsPhysicalDisk(line.devName) && line.devName in last;
            && DiskStates(lines[..i + 1]) ==
               (if IsPhysicalDisk(line.devName) then DiskStates(lines[..i])[line.devName := line.state] else DiskStates(lines[..i]))
            && DiskTotal(last, lines[..i + 1], DiskRead) == DiskTotal(last, lines[..i], DiskRead)
               + (if known then SubU64(line.state.sectorsRead, last[line.devName].sectorsRead) else 0)
            && DiskTotal(last, lines[..i + 1], DiskWritten) == DiskTotal(last, lines[..i], DiskWritten)
               + (if known then SubU64(line.state.sectorsWritten, last[line.devName].sectorsWritten) else 0)
            && MaxUtil(last, lines[..i + 1], dt) ==
               (if known && Util(last[line.devName], line.state, dt) > MaxUtil(last, lines[..i], dt)
                then Util(last[line.devName], line.state, dt) else MaxUtil(last, lines[..i], dt))
  {
    assert lines[..i + 1][..i] == lines[..i];
  }

  lemma {:induction false} DiskTotalIsDelta(last: map<string, DiskState>, lines: seq<DiskLine>, q: Quantity)
    ensures DiskTotal(last, lines, q) == Delta(DiskColumn(last, q), DiskReadings(lines, q))
  {
    if lines != [] {
      DiskTotalIsDelta(last, lines[..|lines| - 1], q);
      var line := lines[|lines| - 1];
      DeltaStep(DiskColumn(last, q), DiskReadings(lines[..|lines| - 1], q), Reading(line.devName, DiskValue(line.state, q)));
    }
  }

  function NetTotal(last: map<string, NetState>, lines: seq<NetLine>, q: Quantity): nat {
    if lines == [] then 0
    else
      var line := lines[|lines| - 1];
      NetTotal(last, lines[..|lines| - 1], q)
      + (if CountsAsInterface(line) && TrimLeft(line.beforeColon) in last
         then SubU64(NetValue(line.state, q), NetValue(last[TrimLeft(line.beforeColon)], q)) else 0)
  }

  lemma {:induction false} NetTotalIsDelta(last: map<string, NetState>, lines: seq<NetLine>, q: Quantity)
    ensures NetTotal(last, lines, q) == Delta(NetColumn(last, q), NetReadings(lines, q))
  {
    if lines != [] {
      NetTotalIsDelta(last, lines[..|lines| - 1], q);
      var line := lines[|lines| - 1];
      if CountsAsInterface(line) {
        DeltaStep(NetColumn(last, q), NetReadings(lines[..|lines| - 1], q),
                  Reading(TrimLeft(line.beforeColon), NetValue(line.state, q)));
      }
    }
  }

  function AtMost100(percent: real): real {
    if percent > 100.0 then 100.0 else percent
  }

  ghost predicate SomeDiskHasUtil(last: map<string, DiskState>, lines: seq<DiskLine>, dt: real, util: real)
    requires dt > 0.0
  {
    exists i :: 0 <= i < |lines| && IsPhysicalDisk(lines[i].devName) && lines[i].devName in last
                && Util(last[lines[i].devName], lines[i].state, dt) == util
  }

  // The metric is an upper bound on every listed disk, cut at 100, and is reached by one of them.
  lemma {:induction false} MaxUtilIsTheBusiestDisk(last: map<string, DiskState>, lines: seq<DiskLine>, dt: real)
    requires dt > 0.0
    ensures 0.0 <= AtMost100(MaxUtil(last, lines, dt)) <= 100.0
    ensures forall i :: 0 <= i < |lines| && IsPhysicalDisk(lines[i].devName) && lines[i].devName in last
              ==> AtMost100(Util(last[lines[i].devName], lines[i].state, dt)) <= AtMost100(MaxUtil(last, lines, dt))
    ensures MaxUtil(last, lines, dt) > 0.0 ==> SomeDiskHasUtil(last, lines, dt, MaxUtil(last, lines, dt))
    ensures AtMost100(MaxUtil(last, lines, dt)) == if MaxUtil(last, lines, dt) < 100.0 then MaxUtil(last, lines, dt) else 100.0
  {
    if lines != [] {
      var rest := lines[..|lines| - 1];
      MaxUtilIsTheBusiestDisk(last, rest, dt);
      if MaxUtil(last, lines, dt) == MaxUtil(last, rest, dt) && MaxUtil(last, rest, dt) > 0.0 {
        var i :| 0 <= i < |rest| && IsPhysicalDisk(rest[i].devName) && rest[i].devName in last
                 && Util(last[rest[i].devName], rest[i].state, dt) == MaxUtil(last, rest, dt);
        assert lines[i] == rest[i];
      }
    }
  }

  function Dt(lastTime: real, now: real): (dt: real)
    ensures dt > 0.0
  {
    if now - lastTime <= 0.0 then 0.0001 else now - lastTime
  }

  // --- Memory --------------------------------------------------------------------------------------

  // The value of the last of the first n lines that has the key, or -1.
  function LastValue(lines: seq<MemLine>, n: nat, key: string): int
    requires n <= |lines|
  {
    if n == 0 then -1 else if lines[n - 1].key == key then lines[n - 1].value else LastValue(lines, n - 1, key)
  }

  function TotalKB(lines: seq<MemLine>): int {
    LastValue(lines, |lines|, "MemTotal:")
  }

  function AvailableKB(lines: seq<MemLine>): int {
    LastValue(lines, |lines|, "MemAvailable:")
  }

  const NO_MEMORY := Memory(-1.0, -1.0, -1.0)

  function MemoryOf(lines: seq<MemLine>): Memory {
    var total, used := TotalKB(lines), TotalKB(lines) - AvailableKB(lines);
    if total > 0 then
      Memory(total as real / 1024.0 / 1024.0, used as real / 1024.0 / 1024.0, used as real / total as real * 100.0)
    else NO_MEMORY
  }

  // The figures of a memory file that lists a total in line i and what is available in line j.
  lemma {:induction false} MemoryByName(lines: seq<MemLine>, i: nat, j: nat)
    requires i < |lines| && lines[i].key == "MemTotal:"
    requires j < |lines| && lines[j].key == "MemAvailable:"
    requires forall k :: i < k < |lines| ==> lines[k].key != "MemTotal:"
    requires forall k :: j < k < |lines| ==> lines[k].key != "MemAvailable:"
    requires lines[i].value > 0
    ensures var m, total, available := MemoryOf(lines), lines[i].value as real, lines[j].value as real;
            && m.totalGB * 1048576.0 == total && m.usedGB * 1048576.0 == total - available
            && m.utilizationPercent * total == 100.0 * (total - available)
  {
    LastValueIs(lines, |lines|, "MemTotal:", i);
    LastValueIs(lines, |lines|, "MemAvailable:", j);
    var total, used := lines[i].value as real, (lines[i].value - lines[j].value) as real;
    assert used / total * total == used;
  }

  lemma {:induction false} LastValueIs(lines: seq<MemLine>, n: nat, key: string, i: nat)
    requires i < n <= |lines| && lines[i].key == key && forall k :: i < k < n ==> lines[k].key != key
    ensures LastValue(lines, n, key) == lines[i].value
  {
    if i < n - 1 { LastValueIs(lines, n - 1, key, i); }
  }

  // Where a total is listed, used and available make it up, and the utilization is a percentage of it
  // exactly if what is listed as available is between none and all. Where nothing is listed as
  // available, one kilobyte more than all is taken to be used.
  lemma {:induction false} MemoryIsAPercentageIff(lines: seq<MemLine>)
    requires TotalKB(lines) > 0
    ensures var m := MemoryOf(lines);
            && m.usedGB * 1048576.0 + AvailableKB(lines) as real == m.totalGB * 1048576.0 == TotalKB(lines) as real
            && (0.0 <= m.utilizationPercent <= 100.0 <==> 0 <= AvailableKB(lines) <= TotalKB(lines))
            && (AvailableKB(lines) == -1 ==> m.utilizationPercent > 100.0)
  {
    var total, used := TotalKB(lines) as real, (TotalKB(lines) - AvailableKB(lines)) as real;
    var share := used / total;
    assert share * total == used;
    ShareIsAPercentageIff(share, total, used);
  }

  lemma {:induction false} ShareIsAPercentageIff(share: real, total: real, part: real)
    requires total > 0.0 && share * total == part
    ensures 0.0 <= share <==> 0.0 <= part
    ensures share <= 1.0 <==> part <= total
  {
    if share < 0.0 { assert share * total < 0.0; }
    if share >= 0.0 { assert share * total >= 0.0; }
    if share > 1.0 { assert (share - 1.0) * total > 0.0; }
    if share <= 1.0 { assert (1.0 - share) * total >= 0.0; }
  }

  ghost predicate MetricsOf(m: Metrics, before: SysState, snap: Snapshot, dt: real, power: real)
    requires dt > 0.0
  {
    && m.diskReadMBps == MBps(Delta(Held(before, DiskRead), Readings(snap, DiskRead)), DiskRead, dt)
    && m.diskWriteMBps == MBps(Delta(Held(before, DiskWritten), Readings(snap, DiskWritten)), DiskWritten, dt)
    && m.netDownloadMBps == MBps(Delta(Held(before, NetDown), Readings(snap, NetDown)), NetDown, dt)
    && m.netUploadMBps == MBps(Delta(Held(before, NetUp), Readings(snap, NetUp)), NetUp, dt)
    && m.maxDiskUtilPercent == AtMost100(MaxUtil(before.disk, snap.disk, dt))
    && m.systemPowerWatts == power
    && m.memory == MemoryOf(snap.mem)
  }

  // The state in which snapshot i of a sample is read: all labels of a sample share its dt.
  function StateBefore(before: SysState, now: real, snaps: seq<Snapshot>, i: nat): SysState
    requires i <= |snaps|
  {
    if i == 0 then before.(lastTime := now) else StateAfter(now, snaps[i - 1])
  }

  // `m` is the metric for label i of a sample that began in state `before`.
  ghost predicate LabelFits(m: Metrics, before: SysState, now: real, snaps: seq<Snapshot>, i: nat, power: real)
    requires i < |snaps|
  {
    MetricsOf(m, StateBefore(before, now, snaps, i), snaps[i], Dt(before.lastTime, now), power)
  }

  // So it is for the first n labels.
  ghost predicate AllFitTo(ms: seq<Metrics>, before: SysState, now: real, snaps: seq<Snapshot>, n: nat, power: real)
    requires n <= |ms| && n <= |snaps|
  {
    n > 0 ==>
      && AllFitTo(ms, before, now, snaps, n - 1, power)
      && LabelFits(ms[n - 1], before, now, snaps, n - 1, power)
  }

  lemma {:induction false} LabelOfSample(ms: seq<Metrics>, before: SysState, now: real, snaps: seq<Snapshot>, n: nat,
                                         power: real, i: nat)
    requires i < n <= |ms| && n <= |snaps| && AllFitTo(ms, before, now, snaps, n, power)
    ensures LabelFits(ms[i], before, now, snaps, i, power)
  {
    if i < n - 1 { LabelOfSample(ms, before, now, snaps, n - 1, power, i); }
  }

  lemma {:induction false} OneMoreLabelFits(ms: seq<Metrics>, m: Metrics, before: SysState, now: real,
                                            snaps: seq<Snapshot>, n: nat, power: real)
    requires n <= |ms| && n <= |snaps| && AllFitTo(ms, before, now, snaps, n, power)
    ensures AllFitTo(ms + [m], before, now, snaps, n, power)
  {
    if n > 0 { OneMoreLabelFits(ms, m, before, now, snaps, n - 1, power); }
  }

  // --- The class -----------------------------------------------------------------------------------

  class SYSImpl {
    var lastTime: real
    var lastDiskStates: map<string, DiskState>
    var lastNetStates: map<string, NetState>
    var cachedPowerWatts: real

    function View(): SysState
      reads this
    {
      SysState(lastTime, lastDiskStates, lastNetStates)
    }

    // The constructor primes the counters with one sample at its end; here it is left to the caller.
    constructor (now: real)
      ensures View() == SysState(now, map[], map[]) && cachedPowerWatts == -1.0
    {
      lastTime := now;
      lastDiskStates, lastNetStates := map[], map[];
      cachedPowerWatts := -1.0;
    }

    method ReadDisk(lines: seq<DiskLine>, dt: real) returns (readMBps: real, writeMBps: real, maxUtilPercent: real)
      requires dt > 0.0
      modifies `lastDiskStates
      ensures lastDiskStates == DiskStates(lines)
      ensures readMBps == MBps(Delta(DiskColumn(old(lastDiskStates), DiskRead), DiskReadings(lines, DiskRead)),
                               DiskRead, dt)
      ensures writeMBps == MBps(Delta(DiskColumn(old(lastDiskStates), DiskWritten), DiskReadings(lines, DiskWritten)),
                                DiskWritten, dt)
      ensures maxUtilPercent == AtMost100(MaxUtil(old(lastDiskStates), lines, dt))
    {
      var totalReadBytes := 0.0;
      var totalWriteBytes := 0.0;
      var maxUtil := 0.0;
      var currentStates: map<string, DiskState> := map[];
      for i := 0 to |lines|
        invariant lastDiskStates == old(lastDiskStates)
        invariant currentStates == DiskStates(lines[..i])
        invariant totalReadBytes == 512.0 * DiskTotal(lastDiskStates, lines[..i], DiskRead) as real
        invariant totalWriteBytes == 512.0 * DiskTotal(lastDiskStates, lines[..i], DiskWritten) as real
        invariant maxUtil == MaxUtil(lastDiskStates, lines[..i], dt)
      {
        var devName, ds := lines[i].devName, lines[i].state;
        DiskLineAdds(lastDiskStates, lines, i, dt);
        if !IsPhysicalDisk(devName) { continue; }
        currentStates := currentStates[devName := ds];
        if devName in lastDiskStates {
          var before := lastDiskStates[devName];
          var rDiff := SubU64(ds.sectorsRead, before.sectorsRead) as real * 512.0;
          var wDiff := SubU64(ds.sectorsWritten, before.sectorsWritten) as real * 512.0;
          totalReadBytes := totalReadBytes + rDiff;
          totalWriteBytes := totalWriteBytes + wDiff;
          var utilDiff := SubU64(ds.timeDoingIO, before.timeDoingIO) as real;
          var util := (utilDiff / (dt * 1000.0)) * 100.0;
          assert util == Util(before, ds, dt);
          if util > maxUtil { maxUtil := util; }
        }
      }
      assert lines[..|lines|] == lines;
      DiskTotalIsDelta(lastDiskStates, lines, DiskRead);
      DiskTotalIsDelta(lastDiskStates, lines, DiskWritten);
      DiskRate(DiskTotal(lastDiskStates, lines, DiskRead), DiskRead, dt);
      DiskRate(DiskTotal(lastDiskStates, lines, DiskWritten), DiskWritten, dt);
      lastDiskStates := currentStates;
      readMBps := totalReadBytes / 1024.0 / 1024.0 / dt;
      writeMBps := totalWriteBytes / 1024.0 / 1024.0 / dt;
      maxUtilPercent := if maxUtil > 100.0 then 100.0 else maxUtil;
    }

    method ReadNetwork(lines: seq<NetLine>, dt: real) returns (downMBps: real, upMBps: real)
      requires dt > 0.0
      modifies `lastNetStates
      ensures lastNetStates == NetStates(Body(lines))
      ensures downMBps == MBps(Delta(NetColumn(old(lastNetStates), NetDown), NetReadings(Body(lines), NetDown)), NetDown, dt)
      ensures upMBps == MBps(Delta(NetColumn(old(lastNetStates), NetUp), NetReadings(Body(lines), NetUp)), NetUp, dt)
    {
      var totalRx := 0.0;
      var totalTx := 0.0;
      var currentStates: map<string, NetState> := map[];
      var body := Body(lines);
      for i := 0 to |body|
        invariant lastNetStates == old(lastNetStates)
        invariant currentStates == NetStates(body[..i])
        invariant totalRx == NetTotal(lastNetStates, body[..i], NetDown) as real
        invariant totalTx == NetTotal(lastNetStates, body[..i], NetUp) as real
      {
        assert body[..i + 1][..i] == body[..i];
        if body[i].NoColon? { continue; }
        var devName, ns := TrimLeft(body[i].beforeColon), body[i].state;
        if devName == "lo" { continue; }
        currentStates := currentStates[devName := ns];
        if devName in lastNetStates {
          var before := lastNetStates[devName];
          totalRx := totalRx + SubU64(ns.bytesRx, before.bytesRx) as real;
          totalTx := totalTx + SubU64(ns.bytesTx, before.bytesTx) as real;
        }
      }
      assert body[..|body|] == body;
      NetTotalIsDelta(lastNetStates, body, NetDown);
      NetTotalIsDelta(lastNetStates, body, NetUp);
      lastNetStates := currentStates;
      downMBps := totalRx / 1024.0 / 1024.0 / dt;
      upMBps := totalTx / 1024.0 / 1024.0 / dt;
    }

    method ReadMemory(lines: seq<MemLine>) returns (m: Memory)
      ensures m == MemoryOf(lines)
    {
      var total, available := -1, -1;
      for i := 0 to |lines|
        invariant total == LastValue(lines, i, "MemTotal:")
        invariant available == LastValue(lines, i, "MemAvailable:")
      {
        if lines[i].key == "MemTotal:" {
          total := lines[i].value;
        } else if lines[i].key == "MemAvailable:" {
          available := lines[i].value;
        }
      }
      if total > 0 {
        var used := total - available;
        m := Memory(total as real / 1024.0 / 1024.0, used as real / 1024.0 / 1024.0, used as real / total as real * 100.0);
      } else {
        m := NO_MEMORY;
      }
    }

    // What sample() does for one label.
    method ReadAll(snap: Snapshot, dt: real) returns (m: Metrics)
      requires dt > 0.0
      modifies `lastDiskStates, `lastNetStates
      ensures View() == StateAfter(lastTime, snap)
      ensures MetricsOf(m, old(View()), snap, dt, cachedPowerWatts)
    {
      var memory := ReadMemory(snap.mem);
      var read, write, util := ReadDisk(snap.disk, dt);
      var down, up := ReadNetwork(snap.net, dt);
      m := Metrics(memory, read, write, util, down, up, cachedPowerWatts);
    }

    // One sample, with one snapshot of the files per label: one metric per label comes back.
    method Sample(now: real, snaps: seq<Snapshot>) returns (results: seq<Metrics>)
      modifies `lastTime, `lastDiskStates, `lastNetStates
      ensures |results| == |snaps|
      ensures View() == StateBefore(old(View()), now, snaps, |snaps|)
      ensures AllFitTo(results, old(View()), now, snaps, |snaps|, cachedPowerWatts)
    {
      ghost var start := View();
      var dt := now - lastTime;
      if dt <= 0.0 { dt := 0.0001; }
      assert dt == Dt(start.lastTime, now);
      lastTime := now;
      results := [];
      for i := 0 to |snaps|
        invariant |results| == i && lastTime == now
        invariant View() == StateBefore(start, now, snaps, i)
        invariant AllFitTo(results, start, now, snaps, i, cachedPowerWatts)
      {
        ghost var before := View();
        var m := ReadAll(snaps[i], dt);
        assert before == StateBefore(start, now, snaps, i);
        assert LabelFits(m, start, now, snaps, i, cachedPowerWatts);
        OneMoreLabelFits(results, m, start, now, snaps, i, cachedPowerWatts);
        results := results + [m];
      }
    }

    // One turn of the background thread: only a positive reading replaces the cached one.
    method StorePower(watts: real)
      modifies `cachedPowerWatts
      ensures cachedPowerWatts == if watts > 0.0 then watts else old(cachedPowerWatts)
    {
      if watts > 0.0 { cachedPowerWatts := watts; }
    }
  }

  lemma {:induction false} DeltaStep(last: map<string, nat>, lines: seq<Reading>, line: Reading)
    ensures Delta(last, lines + [line])
         == Delta(last, lines) + (if line.name in last then SubU64(line.value, last[line.name]) else 0)
  {
  }
}
