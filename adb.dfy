/**
 * The ADB device controller: how each command line is built, how the output of `adb devices`
 * and `adb shell wm size` is read, which device is selected, and the `connected` flag that
 * guards every device action. Running a process is not modelled: `run` gives the process
 * outcome for each command line.
 */
module Adb {
  import opened Wrappers
  import opened Text
  import Settings
  import opened Seqs

  /** What `subprocess.run` reports: an exit with code and streams, a timeout, or another error. */
  datatype ProcessOutcome = Exited(returnCode: int, stdout: string, stderr: string) | TimedOut | Raised(message: string)

  /** The message `_run_adb_command` gives for a timeout. */
  const TimeoutMessage: string := "命令超时"

  /** Where the screenshot is written on the device. */
  const DeviceScreenshotPath: string := "/sdcard/screenshot.png"

  /** The default swipe duration in milliseconds. */
  const DefaultSwipeDuration: int := 500

  /** `if self.device_id:`, false for `None` and for the empty string. */
  predicate IdSet(id: Option<string>) {
    id.Some? && id.value != []
  }

  /** `device_id or Config.DEVICE_ID` */
  function ChooseId(given: Option<string>, configured: Option<string>): (r: Option<string>)
    ensures IdSet(given) ==> r == given
    ensures !IdSet(given) ==> r == configured
  {
    if IdSet(given) then given else configured
  }

  /** The argument list `_run_adb_command` hands to the process: the tool, the device option when a device is set, the command. */
  function CommandLine(adbPath: string, deviceId: Option<string>, command: seq<string>): (full: seq<string>)
    ensures |full| == 1 + (if IdSet(deviceId) then 2 else 0) + |command|
    ensures full[0] == adbPath
    ensures IdSet(deviceId) ==> full[1] == "-s" && full[2] == deviceId.value && full[3..] == command
    ensures !IdSet(deviceId) ==> full[1..] == command
  {
    [adbPath] + (if IdSet(deviceId) then ["-s", deviceId.value] else []) + command
  }

  /** The device a command line addresses, read back from its `-s` option. */
  function Addressed(full: seq<string>): Option<string> {
    if |full| >= 3 && full[1] == "-s" then Some(full[2]) else None
  }

  /** The command of a command line, without the tool and the device option. */
  function CommandOf(full: seq<string>): seq<string>
    requires |full| >= 1
  {
    if |full| >= 3 && full[1] == "-s" then full[3..] else full[1..]
  }

  /**
   * A command line can be read back: it addresses the set device (none when no device is set)
   * and ends with the command. Commands never start with `-s`.
   */
  lemma CommandLineRoundTrip(adbPath: string, deviceId: Option<string>, command: seq<string>)
    requires command == [] || command[0] != "-s"
    ensures var full := CommandLine(adbPath, deviceId, command);
            Addressed(full) == (if IdSet(deviceId) then deviceId else None) && CommandOf(full) == command
  {
    var full := CommandLine(adbPath, deviceId, command);
    if !IdSet(deviceId) && |full| >= 3 {
      assert full[1] == command[0];
    }
  }

  /** The result `_run_adb_command` returns: success with the stripped output, or failure with a message. */
  function Interpret(outcome: ProcessOutcome): (r: (bool, string))
    ensures r.0 <==> outcome.Exited? && outcome.returnCode == 0
    ensures r.0 ==> r.1 == Strip(outcome.stdout)
    ensures outcome.Exited? && outcome.returnCode != 0 ==> r.1 == outcome.stderr
  {
    match outcome
    case Exited(code, out, err) => if code == 0 then (true, Strip(out)) else (false, err)
    case TimedOut => (false, TimeoutMessage)
    case Raised(message) => (false, message)
  }

  // ---------------------------------------------------------------------------------------------
  // `adb devices`

  /** A line of the device list that names a device: not blank and containing `device`. */
  predicate Listed(line: string) {
    Strip(line) != [] && Contains(line, "device")
  }

  /** The ids of the lines `listed` accepts, in order; each id is the text before the first tab. */
  function IdsOf(lines: seq<string>, listed: string -> bool): (ids: seq<string>)
    ensures |ids| <= |lines|
    decreases |lines|
  {
    if lines == [] then []
    else
      var last := lines[|lines| - 1];
      IdsOf(lines[..|lines| - 1], listed) + (if listed(last) then [BeforeFirst(last, '\t')] else [])
  }

  /** The devices `connect_device` reads from the output of `adb devices`: every listed line after the header. */
  function ParseDevices(output: string): seq<string> {
    IdsOf(Split(output, '\n')[1..], Listed)
  }

  lemma IdsOfLast(lines: seq<string>, listed: string -> bool, init: seq<string>, last: string)
    requires lines != [] && init == lines[..|lines| - 1] && last == lines[|lines| - 1]
    ensures IdsOf(lines, listed) == IdsOf(init, listed) + (if listed(last) then [BeforeFirst(last, '\t')] else [])
  {
  }

  /** Every id found comes from an accepted line that starts with it. */
  lemma {:induction false} IdsOfSource(lines: seq<string>, listed: string -> bool, x: string) returns (j: nat)
    requires x in IdsOf(lines, listed)
    ensures j < |lines| && listed(lines[j]) && BeforeFirst(lines[j], '\t') == x
    decreases |lines|
  {
    var init, last := lines[..|lines| - 1], lines[|lines| - 1];
    IdsOfLast(lines, listed, init, last);
    if x in IdsOf(init, listed) {
      j := IdsOfSource(init, listed, x);
      assert lines[j] == init[j];
    } else {
      j := |lines| - 1;
    }
  }

  /** Every accepted line contributes its id. */
  lemma {:induction false} IdsOfComplete(lines: seq<string>, listed: string -> bool, j: nat)
    requires j < |lines| && listed(lines[j])
    ensures BeforeFirst(lines[j], '\t') in IdsOf(lines, listed)
    decreases |lines|
  {
    var init, last := lines[..|lines| - 1], lines[|lines| - 1];
    IdsOfLast(lines, listed, init, last);
    if j < |init| {
      assert init[j] == lines[j];
      IdsOfComplete(init, listed, j);
    }
  }

  /** No id is found exactly when no line is accepted. */
  lemma {:induction false} IdsOfEmpty(lines: seq<string>, listed: string -> bool)
    ensures IdsOf(lines, listed) == [] <==> forall j :: 0 <= j < |lines| ==> !listed(lines[j])
    decreases |lines|
  {
    if lines != [] {
      var init, last := lines[..|lines| - 1], lines[|lines| - 1];
      IdsOfLast(lines, listed, init, last);
      IdsOfEmpty(init, listed);
      if IdsOf(lines, listed) == [] {
        forall j | 0 <= j < |lines| ensures !listed(lines[j]) {
          if j < |init| {
            assert init[j] == lines[j];
          }
        }
      }
    }
  }

  /** Every device found is the id of a listed line after the header. */
  lemma DeviceSource(output: string, x: string) returns (j: nat)
    requires x in ParseDevices(output)
    ensures 1 <= j < |Split(output, '\n')| && Listed(Split(output, '\n')[j])
    ensures BeforeFirst(Split(output, '\n')[j], '\t') == x
  {
    var lines := Split(output, '\n');
    var k := IdsOfSource(lines[1..], Listed, x);
    j := k + 1;
    assert lines[j] == lines[1..][k];
  }

  /** Every listed line after the header gives a device. */
  lemma DeviceComplete(output: string, j: nat)
    requires 1 <= j < |Split(output, '\n')| && Listed(Split(output, '\n')[j])
    ensures BeforeFirst(Split(output, '\n')[j], '\t') in ParseDevices(output)
  {
    var lines := Split(output, '\n');
    assert lines[1..][j - 1] == lines[j];
    IdsOfComplete(lines[1..], Listed, j - 1);
  }

  /** No device is found exactly when no line after the header is listed. */
  lemma NoDeviceFound(output: string)
    ensures var lines := Split(output, '\n');
            ParseDevices(output) == [] <==> forall j :: 1 <= j < |lines| ==> !Listed(lines[j])
  {
    var lines := Split(output, '\n');
    var body := lines[1..];
    IdsOfEmpty(body, Listed);
    assert ParseDevices(output) == IdsOf(body, Listed);
    if ParseDevices(output) == [] {
      forall j | 1 <= j < |lines| ensures !Listed(lines[j]) {
        assert body[j - 1] == lines[j];
      }
    } else {
      var k :| 0 <= k < |body| && Listed(body[k]);
      assert lines[k + 1] == body[k];
    }
  }

  /** The header line is never read, even though `List of devices attached` contains `device`. */
  lemma HeaderSkipped(header: string, rest: string)
    requires '\n' !in header
    ensures ParseDevices(header + "\n" + rest) == IdsOf(Split(rest, '\n'), Listed)
  {
    var s := header + "\n" + rest;
    assert forall k :: 0 <= k < |header| ==> s[k] == header[k];
    assert s[|header|] == '\n';
    assert IndexOf(s, '\n') == |header|;
    assert s[..|header|] == header;
    assert s[|header| + 1..] == rest;
  }

  /** The loop of `connect_device` over the lines after the header. */
  method ParseDeviceList(output: string) returns (devices: seq<string>)
    ensures devices == ParseDevices(output)
  {
    var lines := Split(output, '\n');
    devices := [];
    for i := 1 to |lines|
      invariant devices == IdsOf(lines[1..i], Listed)
    {
      var line := lines[i];
      ghost var seen := lines[1..i + 1];
      assert seen[..|seen| - 1] == lines[1..i] && seen[|seen| - 1] == line;
      IdsOfLast(seen, Listed, lines[1..i], line);
      if Strip(line) != [] && Contains(line, "device") {
        devices := devices + [BeforeFirst(line, '\t')];
      }
    }
    assert lines[1..|lines|] == lines[1..];
  }

  /**
   * The device `connect_device` settles on: none for an empty list; the first listed device when
   * none is set; the set device when it is listed.
   */
  function Select(id: Option<string>, devices: seq<string>): (r: Option<string>)
    ensures r.Some? ==> r.value in devices
    ensures r.None? <==> devices == [] || (IdSet(id) && id.value !in devices)
    ensures r.Some? && !IdSet(id) ==> r.value == devices[0]
    ensures r.Some? && IdSet(id) ==> r == id
  {
    if devices == [] then None
    else if !IdSet(id) then Some(devices[0])
    else if id.value in devices then id
    else None
  }

  // ---------------------------------------------------------------------------------------------
  // `adb shell wm size`

  /** The end of the run of digits that starts at `i`. */
  function DigitRunEnd(s: string, i: nat): (j: nat)
    requires i <= |s|
    ensures i <= j <= |s|
    ensures forall k :: i <= k < j ==> IsDigit(s[k])
    ensures j == |s| || !IsDigit(s[j])
    decreases |s| - i
  {
    if i < |s| && IsDigit(s[i]) then DigitRunEnd(s, i + 1) else i
  }

  /**
   * The pattern `(\d+)x(\d+)` matches at `i`: a digit run from `i` ends at an `x` that a digit
   * follows. A shorter first run would end at a digit, so the run is always taken whole.
   */
  predicate SizeAt(s: string, i: nat) {
    i < |s| && IsDigit(s[i]) && DigitRunEnd(s, i) + 1 < |s| && s[DigitRunEnd(s, i)] == 'x'
    && IsDigit(s[DigitRunEnd(s, i) + 1])
  }

  /** The two numbers of the match at `i`. */
  function SizeValue(s: string, i: nat): (nat, nat)
    requires SizeAt(s, i)
  {
    var j := DigitRunEnd(s, i);
    var k := DigitRunEnd(s, j + 1);
    (DigitsValue(s[i..j]), DigitsValue(s[j + 1..k]))
  }

  /** Where `re.search(r'(\d+)x(\d+)', s)` finds its match from position `i` on: the leftmost match, or `|s|` for none. */
  function FirstSizeAt(s: string, i: nat): (k: nat)
    requires i <= |s|
    ensures i <= k <= |s|
    ensures k < |s| ==> SizeAt(s, k)
    ensures forall m :: i <= m < k ==> !SizeAt(s, m)
    decreases |s| - i
  {
    if i == |s| || SizeAt(s, i) then i else FirstSizeAt(s, i + 1)
  }

  /** The two numbers of the leftmost match, if any. */
  function FindSize(s: string): Option<(nat, nat)> {
    var k := FirstSizeAt(s, 0);
    if k == |s| then None else Some(SizeValue(s, k))
  }

  /** `get_screen_size` on the command's output: a size only when the output reports a physical size. */
  function ParseScreenSize(output: string): (r: Option<(nat, nat)>)
    ensures !Contains(output, "Physical size:") ==> r.None?
  {
    if Contains(output, "Physical size:") then FindSize(output) else None
  }

  /** A digit run of `d` at `i`, followed by a non-digit or the end, ends at `i + |d|`. */
  lemma RunOf(s: string, i: nat, d: string)
    requires i + |d| <= |s| && s[i..i + |d|] == d && AllDigits(d)
    requires i + |d| == |s| || !IsDigit(s[i + |d|])
    ensures DigitRunEnd(s, i) == i + |d|
    decreases |d|
  {
    if d != [] {
      assert s[i] == d[0];
      assert s[i + 1..i + |d|] == d[1..];
      RunOf(s, i + 1, d[1..]);
    }
  }

  const SizePrefix: string := "Physical size: "

  lemma PrefixHasNoDigit()
    ensures forall m :: 0 <= m < |SizePrefix| ==> !IsDigit(SizePrefix[m])
  {
  }

  /** Two digit runs around an `x` after the prefix form the match, with their values. */
  lemma SizeMatch(s: string, w: string, h: string)
    requires w != [] && h != [] && AllDigits(w) && AllDigits(h)
    requires s == SizePrefix + w + "x" + h
    ensures SizeAt(s, |SizePrefix|)
    ensures SizeValue(s, |SizePrefix|) == (DigitsValue(w), DigitsValue(h))
  {
    var p := |SizePrefix|;
    var q := p + |w| + 1;
    assert s[p..p + |w|] == w;
    assert s[p + |w|] == 'x';
    RunOf(s, p, w);
    assert s[q..q + |h|] == h;
    assert q + |h| == |s|;
    RunOf(s, q, h);
    assert s[p] == w[0];
    assert s[q] == h[0];
  }

  /** The line `wm size` prints is read back as the size it reports. */
  lemma ScreenSizeRoundTrip(width: nat, height: nat)
    ensures ParseScreenSize(SizePrefix + NatToString(width) + "x" + NatToString(height)) == Some((width, height))
  {
    var w, h := NatToString(width), NatToString(height);
    var s := SizePrefix + w + "x" + h;
    var p := |SizePrefix|;
    assert "Physical size:" <= s;
    SizeMatch(s, w, h);
    PrefixHasNoDigit();
    forall m | 0 <= m < p ensures !SizeAt(s, m) {
      assert s[m] == SizePrefix[m];
    }
    NatToStringRoundTrip(width);
    NatToStringRoundTrip(height);
    assert FirstSizeAt(s, 0) == p;
  }

  // ---------------------------------------------------------------------------------------------
  // Device actions

  /** `shell input swipe sx sy ex ey duration` */
  function SwipeArgs(startX: int, startY: int, endX: int, endY: int, duration: int): (args: seq<string>)
    ensures |args| == 8 && args[..3] == ["shell", "input", "swipe"]
  {
    ["shell", "input", "swipe", IntToString(startX), IntToString(startY), IntToString(endX), IntToString(endY),
     IntToString(duration)]
  }

  /** The numbers of a swipe are read back from its arguments. */
  lemma SwipeArgsRoundTrip(startX: int, startY: int, endX: int, endY: int, duration: int)
    ensures var a := SwipeArgs(startX, startY, endX, endY, duration);
            ParseInt(a[3]) == startX && ParseInt(a[4]) == startY && ParseInt(a[5]) == endX
            && ParseInt(a[6]) == endY && ParseInt(a[7]) == duration
  {
    IntToStringRoundTrip(startX);
    IntToStringRoundTrip(startY);
    IntToStringRoundTrip(endX);
    IntToStringRoundTrip(endY);
    IntToStringRoundTrip(duration);
  }

  /** `shell input tap x y` */
  function TapArgs(x: int, y: int): (args: seq<string>)
    ensures |args| == 5 && args[..3] == ["shell", "input", "tap"]
  {
    ["shell", "input", "tap", IntToString(x), IntToString(y)]
  }

  lemma TapArgsRoundTrip(x: int, y: int)
    ensures ParseInt(TapArgs(x, y)[3]) == x && ParseInt(TapArgs(x, y)[4]) == y
  {
    IntToStringRoundTrip(x);
    IntToStringRoundTrip(y);
  }

  /** What `connect_device` ends with: its answer, the device it settled on and the command lines it ran. */
  datatype ConnectResult = ConnectResult(ok: bool, deviceId: Option<string>, commands: seq<seq<string>>)

  /**
   * `connect_device` step by step: the tool must exist and start its server, the device list must
   * be read and not be empty, a missing device is the first one listed, the device must be listed,
   * and a test command on it must succeed.
   */
  function Connect(adbPath: string, id: Option<string>, adbExists: bool, run: seq<string> -> ProcessOutcome): ConnectResult {
    if !adbExists then ConnectResult(false, id, [])
    else
      var start := CommandLine(adbPath, id, ["start-server"]);
      if !Interpret(run(start)).0 then ConnectResult(false, id, [start])
      else
        var list := CommandLine(adbPath, id, ["devices"]);
        var listed := Interpret(run(list));
        if !listed.0 then ConnectResult(false, id, [start, list])
        else
          var a := Attach(adbPath, id, ParseDevices(listed.1), run);
          ConnectResult(a.ok, a.deviceId, [start, list] + a.commands)
  }

  /** The second half of `connect_device`, on the devices read: choose the device, check it is listed and test it. */
  function Attach(adbPath: string, id: Option<string>, devices: seq<string>, run: seq<string> -> ProcessOutcome): ConnectResult {
    if devices == [] then ConnectResult(false, id, [])
    else
      var chosen := if !IdSet(id) then Some(devices[0]) else id;
      if chosen.value !in devices then ConnectResult(false, chosen, [])
      else
        var test := CommandLine(adbPath, chosen, ["shell", "echo", "test"]);
        ConnectResult(Interpret(run(test)).0, chosen, [test])
  }

  /** The device list `connect_device` reads, when it gets that far. */
  function ListedDevices(adbPath: string, id: Option<string>, run: seq<string> -> ProcessOutcome): seq<string> {
    ParseDevices(Interpret(run(CommandLine(adbPath, id, ["devices"]))).1)
  }

  /**
   * A connection succeeds only on a listed device: the one set, or the first listed when none is
   * set, and it is the device `Select` names. A set device is never replaced.
   */
  lemma ConnectSelects(adbPath: string, id: Option<string>, adbExists: bool, run: seq<string> -> ProcessOutcome)
    ensures var c := Connect(adbPath, id, adbExists, run);
            var devices := ListedDevices(adbPath, id, run);
            (c.ok ==> c.deviceId == Select(id, devices) && c.deviceId.Some? && c.deviceId.value in devices)
            && (IdSet(id) ==> c.deviceId == id)
            && (c.ok ==> adbExists && |c.commands| == 3)
  {
  }

  /** An empty device list, or a set device missing from it, is a failure, and with no test command run. */
  lemma ConnectFails(adbPath: string, id: Option<string>, adbExists: bool, run: seq<string> -> ProcessOutcome)
    requires var devices := ListedDevices(adbPath, id, run);
             devices == [] || (IdSet(id) && id.value !in devices)
    ensures !Connect(adbPath, id, adbExists, run).ok
    ensures |Connect(adbPath, id, adbExists, run).commands| <= 2
  {
  }

  /** With no device set, a readable non-empty list makes its first device the controller's device. */
  lemma ConnectAutoSelects(adbPath: string, id: Option<string>, run: seq<string> -> ProcessOutcome)
    requires !IdSet(id)
    requires Interpret(run(CommandLine(adbPath, id, ["start-server"]))).0
    requires Interpret(run(CommandLine(adbPath, id, ["devices"]))).0
    requires ListedDevices(adbPath, id, run) != []
    ensures Connect(adbPath, id, true, run).deviceId == Some(ListedDevices(adbPath, id, run)[0])
  {
  }

  /**
   * `AndroidController`. `run` answers each command line and `adbExists` says whether the tool is
   * on disk; `issued` lists every command line handed to a process, in order.
   */
  class AndroidController {
    var deviceId: Option<string>
    const adbPath: string
    var connected: bool
    const run: seq<string> -> ProcessOutcome
    const adbExists: bool
    var issued: seq<seq<string>>

    constructor (cfg: Settings.Config, deviceId: Option<string>, run: seq<string> -> ProcessOutcome, adbExists: bool)
      ensures this.deviceId == ChooseId(deviceId, cfg.deviceId) && adbPath == cfg.adbPath
      ensures this.run == run && this.adbExists == adbExists
      ensures !connected && issued == []
    {
      this.deviceId := ChooseId(deviceId, cfg.deviceId);
      adbPath := cfg.adbPath;
      this.run := run;
      this.adbExists := adbExists;
      connected := false;
      issued := [];
    }

    /** `_run_adb_command`: build the command line, run it, read the result. */
    method RunAdbCommand(command: seq<string>) returns (ok: bool, output: string)
      modifies this
      ensures issued == old(issued) + [CommandLine(adbPath, deviceId, command)]
      ensures (ok, output) == Interpret(run(CommandLine(adbPath, deviceId, command)))
      ensures deviceId == old(deviceId) && connected == old(connected)
    {
      var full := [adbPath];
      if IdSet(deviceId) {
        full := full + ["-s", deviceId.value];
      }
      full := full + command;
      assert full == CommandLine(adbPath, deviceId, command);
      issued := issued + [full];
      var r := Interpret(run(full));
      ok, output := r.0, r.1;
    }

    /** `connect_device`: `connected` becomes true only when every check passes, and is otherwise left as it was. */
    method ConnectDevice() returns (ok: bool)
      modifies this
      ensures var c := Connect(adbPath, old(deviceId), adbExists, run);
              ok == c.ok && deviceId == c.deviceId && issued == old(issued) + c.commands
      ensures connected == (old(connected) || ok)
    {
      ghost var before, id := issued, deviceId;
      ghost var start := CommandLine(adbPath, id, ["start-server"]);
      ghost var list := CommandLine(adbPath, id, ["devices"]);
      if !adbExists {
        assert issued == before + [];
        return false;
      }
      var success, output := RunAdbCommand(["start-server"]);
      assert issued == before + [start];
      if !success {
        return false;
      }
      success, output := RunAdbCommand(["devices"]);
      AppendTwo(before, start, list);
      if !success {
        return false;
      }
      var devices := ParseDeviceList(output);
      ok := AttachDevice(devices);
      AppendAssoc(before, [start, list], Attach(adbPath, id, devices, run).commands);
    }

    /** The checks `connect_device` makes on the device list. */
    method AttachDevice(devices: seq<string>) returns (ok: bool)
      modifies this
      ensures var a := Attach(adbPath, old(deviceId), devices, run);
              ok == a.ok && deviceId == a.deviceId && issued == old(issued) + a.commands
      ensures connected == (old(connected) || ok)
    {
      if devices == [] {
        assert issued == old(issued) + [];
        return false;
      }
      if !IdSet(deviceId) {
        deviceId := Some(devices[0]);
      }
      if deviceId.value !in devices {
        assert issued == old(issued) + [];
        return false;
      }
      ok := TestDevice();
    }

    /** The test command `connect_device` runs on the chosen device; success sets `connected`. */
    method TestDevice() returns (ok: bool)
      modifies this
      ensures var test := CommandLine(adbPath, deviceId, ["shell", "echo", "test"]);
              ok == Interpret(run(test)).0 && issued == old(issued) + [test]
      ensures deviceId == old(deviceId) && connected == (old(connected) || ok)
    {
      var output;
      ok, output := RunAdbCommand(["shell", "echo", "test"]);
      connected := connected || ok;
    }

    /** The command lines `capture_screenshot` runs while connected: later steps only after earlier ones succeed. */
    ghost function ScreenshotCommands(savePath: string): seq<seq<string>>
      reads this
    {
      var cap := CommandLine(adbPath, deviceId, ["shell", "screencap", "-p", DeviceScreenshotPath]);
      var pull := CommandLine(adbPath, deviceId, ["pull", DeviceScreenshotPath, savePath]);
      var rm := CommandLine(adbPath, deviceId, ["shell", "rm", DeviceScreenshotPath]);
      if !Interpret(run(cap)).0 then [cap]
      else if !Interpret(run(pull)).0 then [cap, pull]
      else [cap, pull, rm]
    }

    /** `capture_screenshot`: screencap on the device, pull to `savePath`, then remove the device copy. */
    method CaptureScreenshot(savePath: string) returns (ok: bool)
      modifies this
      ensures deviceId == old(deviceId) && connected == old(connected)
      ensures !connected ==> !ok && issued == old(issued)
      ensures connected ==> issued == old(issued) + ScreenshotCommands(savePath)
      ensures connected ==> ok == (|ScreenshotCommands(savePath)| == 3)
    {
      if !connected {
        return false;
      }
      ghost var before := issued;
      ghost var cap := CommandLine(adbPath, deviceId, ["shell", "screencap", "-p", DeviceScreenshotPath]);
      ghost var pull := CommandLine(adbPath, deviceId, ["pull", DeviceScreenshotPath, savePath]);
      ghost var rm := CommandLine(adbPath, deviceId, ["shell", "rm", DeviceScreenshotPath]);
      var success, _ := RunAdbCommand(["shell", "screencap", "-p", DeviceScreenshotPath]);
      assert issued == before + [cap];
      if !success {
        return false;
      }
      var pulled, _ := RunAdbCommand(["pull", DeviceScreenshotPath, savePath]);
      AppendTwo(before, cap, pull);
      if !pulled {
        return false;
      }
      var _, _ := RunAdbCommand(["shell", "rm", DeviceScreenshotPath]);
      AppendThird(before, cap, pull, rm);
      ok := true;
    }

    /**
     * `swipe`: one `input swipe` command, only while connected. After a successful command the
     * pause of `duration / 1000 + 0.5` seconds is negative when `duration < -500`; `time.sleep`
     * then raises and the handler answers `False`, although the command has run.
     */
    method Swipe(startX: int, startY: int, endX: int, endY: int, duration: int := DefaultSwipeDuration) returns (ok: bool)
      modifies this
      ensures deviceId == old(deviceId) && connected == old(connected)
      ensures !connected ==> !ok && issued == old(issued)
      ensures connected ==>
                var cmd := CommandLine(adbPath, deviceId, SwipeArgs(startX, startY, endX, endY, duration));
                ok == (Interpret(run(cmd)).0 && duration >= -500) && issued == old(issued) + [cmd]
    {
      if !connected {
        return false;
      }
      var success, _ := RunAdbCommand(["shell", "input", "swipe", IntToString(startX), IntToString(startY),
                                       IntToString(endX), IntToString(endY), IntToString(duration)]);
      ok := success && (duration as real) / 1000.0 + 0.5 >= 0.0;
    }

    /** `tap`: one `input tap` command, only while connected. */
    method Tap(x: int, y: int) returns (ok: bool)
      modifies this
      ensures deviceId == old(deviceId) && connected == old(connected)
      ensures !connected ==> !ok && issued == old(issued)
      ensures connected ==>
                var cmd := CommandLine(adbPath, deviceId, TapArgs(x, y));
                ok == Interpret(run(cmd)).0 && issued == old(issued) + [cmd]
    {
      if !connected {
        return false;
      }
      var success, _ := RunAdbCommand(["shell", "input", "tap", IntToString(x), IntToString(y)]);
      ok := success;
    }

    /** `get_screen_size`: `(width, height)` from `wm size`, only while connected. */
    method GetScreenSize() returns (size: Option<(nat, nat)>)
      modifies this
      ensures deviceId == old(deviceId) && connected == old(connected)
      ensures !connected ==> size.None? && issued == old(issued)
      ensures connected ==>
                var cmd := CommandLine(adbPath, deviceId, ["shell", "wm", "size"]);
                var r := Interpret(run(cmd));
                size == (if r.0 then ParseScreenSize(r.1) else None) && issued == old(issued) + [cmd]
    {
      if !connected {
        return None;
      }
      var success, output := RunAdbCommand(["shell", "wm", "size"]);
      if success && Contains(output, "Physical size:") {
        size := FindSize(output);
      } else {
        size := None;
      }
    }

    /** `wait_for_device`: the answer of `wait-for-device`, whether or not connected. */
    method WaitForDevice() returns (ok: bool)
      modifies this
      ensures deviceId == old(deviceId) && connected == old(connected)
      ensures var cmd := CommandLine(adbPath, deviceId, ["wait-for-device"]);
              ok == Interpret(run(cmd)).0 && issued == old(issued) + [cmd]
    {
      var answered, _ := RunAdbCommand(["wait-for-device"]);
      ok := answered;
    }

    /** `disconnect`: only the flag changes. */
    method Disconnect()
      modifies this
      ensures !connected
      ensures deviceId == old(deviceId) && issued == old(issued)
    {
      connected := false;
    }
  }

  /** After `disconnect` no device action issues a command, and each reports failure. */
  method DisconnectedIsInert(c: AndroidController, savePath: string)
    modifies c
    ensures !c.connected && c.issued == old(c.issued)
  {
    c.Disconnect();
    var a := c.CaptureScreenshot(savePath);
    var b := c.Swipe(0, 0, 1, 1);
    var t := c.Tap(0, 0);
    var s := c.GetScreenSize();
    assert !a && !b && !t && s.None?;
  }
}
