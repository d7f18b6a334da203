/** The text processing of the App's device list and package list: the lines of `adb devices -l`
    and of `pm list packages`, with the command output supplied by the caller. */
module AdbOutput {
  import opened Wrappers
  import opened Text
  import opened Seqs

  // ---------------------------------------------------------------------------
  // Line by line
  // ---------------------------------------------------------------------------

  /** The lines of a command's output. */
  function Lines(output: string): seq<string>
  {
    Split(output, "\n")
  }

  function Found<T>(x: Option<T>): seq<T>
  {
    match x
    case None => []
    case Some(v) => [v]
  }

  /** What a parser of single lines collects from a listing: what it finds, in line order. */
  function Collected<T>(lines: seq<string>, parse: string -> Option<T>): seq<T>
  {
    if lines == [] then []
    else Collected(lines[..|lines| - 1], parse) + Found(parse(lines[|lines| - 1]))
  }

  lemma CollectedStep<T>(lines: seq<string>, i: nat, parse: string -> Option<T>)
    requires i < |lines|
    ensures Collected(lines[..i + 1], parse) == Collected(lines[..i], parse) + Found(parse(lines[i]))
  {
    assert lines[..i + 1][..i] == lines[..i];
  }

  /** What consecutive blocks of lines give is what each block gives, one after the other. */
  lemma {:induction false} CollectedConcat<T>(a: seq<string>, b: seq<string>, parse: string -> Option<T>)
    ensures Collected(a + b, parse) == Collected(a, parse) + Collected(b, parse)
    decreases |b|
  {
    if b == [] {
      assert a + b == a;
    } else {
      var init := b[..|b| - 1];
      assert (a + b)[..|a + b| - 1] == a + init;
      assert (a + b)[|a + b| - 1] == b[|b| - 1];
      CollectedConcat(a, init, parse);
    }
  }

  /** What a line gives sits right after what all earlier lines give: the order of the lines is kept. */
  lemma CollectedAt<T>(lines: seq<string>, i: nat, parse: string -> Option<T>)
    requires i < |lines| && parse(lines[i]).Some?
    ensures var k := |Collected(lines[..i], parse)|;
      k < |Collected(lines, parse)| && Collected(lines, parse)[k] == parse(lines[i]).value
  {
    assert lines == lines[..i] + [lines[i]] + lines[i + 1..];
    CollectedConcat(lines[..i] + [lines[i]], lines[i + 1..], parse);
    CollectedConcat(lines[..i], [lines[i]], parse);
    assert [lines[i]][..0] == [];
  }

  // ---------------------------------------------------------------------------
  // adb devices -l
  // ---------------------------------------------------------------------------

  datatype Device = Device(id: string, state: string, model: string)

  const DevicesHeader: string := "List of devices attached"
  const ModelKey: string := "model:"

  /** The header line `adb devices` prints before the devices. */
  predicate IsHeader(line: string)
  {
    HasPrefix(line, DevicesHeader)
  }

  /** The model a device line names: what follows `model:` in the last field that starts with it. */
  function ModelOf(fields: seq<string>): string
  {
    if fields == [] then ""
    else if HasPrefix(fields[|fields| - 1], ModelKey) then TrimPrefix(fields[|fields| - 1], ModelKey)
    else ModelOf(fields[..|fields| - 1])
  }

  /** Without a `model:` field the model is empty. */
  lemma {:induction false} ModelAbsent(fields: seq<string>)
    requires forall i :: 0 <= i < |fields| ==> !HasPrefix(fields[i], ModelKey)
    ensures ModelOf(fields) == ""
  {
    if fields != [] {
      ModelAbsent(fields[..|fields| - 1]);
    }
  }

  /** Otherwise it comes from the last `model:` field: a later one overwrites an earlier one. */
  lemma {:induction false} ModelFromLast(fields: seq<string>, i: nat)
    requires i < |fields| && HasPrefix(fields[i], ModelKey)
    requires forall j :: i < j < |fields| ==> !HasPrefix(fields[j], ModelKey)
    ensures ModelOf(fields) == fields[i][|ModelKey|..]
    decreases |fields|
  {
    if i < |fields| - 1 {
      var init := fields[..|fields| - 1];
      assert init[i] == fields[i];
      ModelFromLast(init, i);
    }
  }

  /** The device a line of the listing describes: none for a blank line, the header line or a
      line of fewer than two fields; otherwise the serial, the state and the model. */
  function DeviceOfLine(line: string): Option<Device>
  {
    var t := TrimSpace(line);
    if t == "" || IsHeader(t) then None
    else
      var parts := Fields(t);
      if |parts| >= 2 then Some(Device(parts[0], parts[1], ModelOf(parts))) else None
  }

  /** The devices of a listing's lines, in line order. */
  function DevicesOf(lines: seq<string>): seq<Device>
  {
    Collected(lines, DeviceOfLine)
  }

  /** The parsing loop of GetDevices, over the lines of the command's output. */
  method ParseDevices(output: string) returns (devices: seq<Device>)
    ensures devices == DevicesOf(Lines(output))
  {
    var lines := Lines(output);
    devices := [];
    var i := 0;
    while i < |lines|
      invariant 0 <= i <= |lines|
      invariant devices == DevicesOf(lines[..i])
    {
      CollectedStep(lines, i, DeviceOfLine);
      var device := ParseLine(lines[i]);
      if device.Some? {
        devices := devices + [device.value];
      }
      i := i + 1;
    }
    assert lines[..|lines|] == lines;
  }

  /** The body of that loop for one line: skipped when blank or the header, dropped when it has
      fewer than two fields, otherwise the device it lists. */
  method ParseLine(raw: string) returns (device: Option<Device>)
    ensures device == DeviceOfLine(raw)
  {
    var line := TrimSpace(raw);
    if line == "" || IsHeader(line) {
      return None;
    }
    var parts := Fields(line);
    if |parts| >= 2 {
      var model := ReadModel(parts);
      return Some(Device(parts[0], parts[1], model));
    }
    return None;
  }

  /** The inner loop of GetDevices: every `model:` field overwrites the model read so far. */
  method ReadModel(parts: seq<string>) returns (model: string)
    ensures model == ModelOf(parts)
  {
    model := "";
    var k := 0;
    while k < |parts|
      invariant 0 <= k <= |parts|
      invariant model == ModelOf(parts[..k])
    {
      ModelStep(parts, k);
      if HasPrefix(parts[k], ModelKey) {
        model := TrimPrefix(parts[k], ModelKey);
      }
      k := k + 1;
    }
    assert parts[..|parts|] == parts;
  }

  lemma ModelStep(fields: seq<string>, k: nat)
    requires k < |fields|
    ensures ModelOf(fields[..k + 1])
      == if HasPrefix(fields[k], ModelKey) then TrimPrefix(fields[k], ModelKey) else ModelOf(fields[..k])
  {
    assert fields[..k + 1][..k] == fields[..k];
  }

  /** GetDevices, given what running `adb devices -l` gave: its output or the failure. */
  method GetDevices(output: Result<string, string>) returns (r: Result<seq<Device>, string>)
    ensures output.Err? ==> r == Err("failed to run adb: " + output.error)
    ensures output.Ok? ==> r == Ok(DevicesOf(Lines(output.value)))
  {
    if output.Err? {
      return Err("failed to run adb: " + output.error);
    }
    var devices := ParseDevices(output.value);
    return Ok(devices);
  }

  /** A listed device sits after the devices of all earlier lines: devices keep line order. */
  lemma DeviceAtLine(lines: seq<string>, i: nat)
    requires i < |lines| && DeviceOfLine(lines[i]).Some?
    ensures var k := |DevicesOf(lines[..i])|;
      k < |DevicesOf(lines)| && DevicesOf(lines)[k] == DeviceOfLine(lines[i]).value
  {
    CollectedAt(lines, i, DeviceOfLine);
  }

  /** Blank lines, the header line and one-field lines list no device; the serial and the state
      of a listed device are single words. */
  lemma DeviceLineShape(line: string)
    ensures TrimSpace(line) == "" ==> DeviceOfLine(line) == None
    ensures IsHeader(TrimSpace(line)) ==> DeviceOfLine(line) == None
    ensures |Fields(TrimSpace(line))| < 2 ==> DeviceOfLine(line) == None
    ensures DeviceOfLine(line).Some? ==> IsWordRun(DeviceOfLine(line).value.id) && IsWordRun(DeviceOfLine(line).value.state)
  {
  }

  /** A line of words separated by single spaces lists the device its first two words and its
      fields name, unless it starts with the header. */
  lemma DeviceOfWords(ws: seq<string>)
    requires |ws| >= 2 && forall i :: 0 <= i < |ws| ==> IsWordRun(ws[i])
    requires !IsHeader(Join(ws, " "))
    ensures DeviceOfLine(Join(ws, " ")) == Some(Device(ws[0], ws[1], ModelOf(ws)))
  {
    var line := Join(ws, " ");
    JoinEnds(ws, " ");
    TrimSpaceOfTrimmed(line);
    FieldsOfJoin(ws);
    DeviceOfFields(line, ws);
  }

  /** No formatted device line starts with the header: its third word starts `model:` where the
      header's starts `devices`, and a first word other than `List` or a second other than `of`
      puts a space where the header has none, or the other way round. */
  lemma FormattedNotHeader(id: string, state: string, tag: string)
    requires IsWordRun(id) && IsWordRun(state) && tag != [] && tag[0] == 'm'
    ensures !IsHeader(id + " " + state + " " + tag)
  {
    var line := id + " " + state + " " + tag;
    var h := DevicesHeader;
    assert h[0] == 'L' && h[1] == 'i' && h[2] == 's' && h[3] == 't' && h[4] == ' ';
    assert h[5] == 'o' && h[6] == 'f' && h[7] == ' ' && h[8] == 'd';
    if |line| >= |h| {
      var k: nat;
      if |id| < 4 {
        k := |id|;
        assert line[k] == ' ';
      } else if |id| > 4 {
        k := 4;
        assert line[k] == id[4];
      } else if |state| < 2 {
        k := 5 + |state|;
        assert line[k] == ' ';
      } else if |state| > 2 {
        k := 7;
        assert line[k] == state[2];
      } else {
        k := 8;
        assert line[k] == tag[0];
      }
      assert line[..|h|][k] != h[k];
    }
  }

  lemma DeviceOfFields(line: string, ws: seq<string>)
    requires TrimSpace(line) == line && line != [] && !IsHeader(line)
    requires Fields(line) == ws && |ws| >= 2
    ensures DeviceOfLine(line) == Some(Device(ws[0], ws[1], ModelOf(ws)))
  {
  }

  /** The line `serial state model:name` of a device lists that device. */
  function FormatDevice(d: Device): string
  {
    Join([d.id, d.state, ModelKey + d.model], " ")
  }

  lemma ParseFormatDevice(d: Device)
    requires IsWordRun(d.id) && IsWordRun(d.state)
    requires forall k :: 0 <= k < |d.model| ==> !IsSpace(d.model[k])
    ensures DeviceOfLine(FormatDevice(d)) == Some(d)
  {
    var tag := ModelKey + d.model;
    var ws := [d.id, d.state, tag];
    assert ModelKey[0] == 'm' && ModelKey[5] == ':';
    assert IsWordRun(tag) by {
      forall k | 0 <= k < |tag|
        ensures !IsSpace(tag[k])
      {
        if k >= |ModelKey| {
          assert tag[k] == d.model[k - |ModelKey|];
        }
      }
    }
    assert Join(ws, " ") == d.id + " " + d.state + " " + tag by {
      assert ws[1..] == [d.state, tag] && ws[1..][1..] == [tag];
      assert Join(ws[1..], " ") == d.state + " " + tag;
      assert Join(ws, " ") == d.id + " " + (d.state + " " + tag);
    }
    FormattedNotHeader(d.id, d.state, tag);
    DeviceOfWords(ws);
    assert tag[..|ModelKey|] == ModelKey;
    ModelFromLast(ws, 2);
    assert tag[|ModelKey|..] == d.model;
  }

  // ---------------------------------------------------------------------------
  // pm list packages
  // ---------------------------------------------------------------------------

  datatype AppPackage = AppPackage(name: string, packageType: string, state: string)

  const PackageKey: string := "package:"

  /** The package a line of `pm list packages` names: the trimmed line after `package:`. */
  function PackageName(line: string): Option<string>
  {
    var t := TrimSpace(line);
    if HasPrefix(t, PackageKey) then Some(TrimPrefix(t, PackageKey)) else None
  }

  /** The packages named by a listing's lines, in line order. */
  function PackageNames(lines: seq<string>): seq<string>
  {
    Collected(lines, PackageName)
  }

  lemma PackageNamesStep(lines: seq<string>, i: nat, line: string)
    requires i < |lines| && line == TrimSpace(lines[i])
    ensures HasPrefix(line, PackageKey) ==> PackageNames(lines[..i + 1]) == PackageNames(lines[..i]) + [TrimPrefix(line, PackageKey)]
    ensures !HasPrefix(line, PackageKey) ==> PackageNames(lines[..i + 1]) == PackageNames(lines[..i])
  {
    CollectedStep(lines, i, PackageName);
  }

  /** The names of a list, as the keys of a map to `true`. */
  function NameSet(names: seq<string>): set<string>
  {
    if names == [] then {} else NameSet(names[..|names| - 1]) + {names[|names| - 1]}
  }

  lemma {:induction false} NameSetMembers(names: seq<string>)
    ensures forall n :: n in NameSet(names) <==> n in names
  {
    if names != [] {
      NameSetMembers(names[..|names| - 1]);
      assert names == names[..|names| - 1] + [names[|names| - 1]];
    }
  }

  /** The disabled packages: the names the `-d` listing gives, or none when that listing failed. */
  function DisabledSet(output: Result<string, string>): set<string>
  {
    if output.Ok? then NameSet(PackageNames(Lines(output.value))) else {}
  }

  /** Filling the disabled set, line by line. */
  method CollectDisabled(output: Result<string, string>) returns (disabled: set<string>)
    ensures disabled == DisabledSet(output)
  {
    disabled := {};
    if output.Err? {
      return;
    }
    var lines := Lines(output.value);
    var i := 0;
    while i < |lines|
      invariant 0 <= i <= |lines|
      invariant disabled == NameSet(PackageNames(lines[..i]))
    {
      var line := TrimSpace(lines[i]);
      PackageNamesStep(lines, i, line);
      if HasPrefix(line, PackageKey) {
        disabled := disabled + {TrimPrefix(line, PackageKey)};
      }
      i := i + 1;
    }
    assert lines[..|lines|] == lines;
  }

  const Enabled: string := "enabled"
  const Disabled: string := "disabled"

  function StateOf(name: string, disabled: set<string>): string
  {
    if name in disabled then Disabled else Enabled
  }

  /** The packages of one listing, all of one type, each enabled or disabled. */
  function Classified(names: seq<string>, packageType: string, disabled: set<string>): (r: seq<AppPackage>)
    ensures |r| == |names|
  {
    if names == [] then []
    else
      Classified(names[..|names| - 1], packageType, disabled)
      + [AppPackage(names[|names| - 1], packageType, StateOf(names[|names| - 1], disabled))]
  }

  /** The `fetch` helper: the listing's packages are appended to those collected so far. A failed
      listing appends nothing and reports its error. */
  method Fetch(output: Result<string, string>, packageType: string, disabled: set<string>, before: seq<AppPackage>)
    returns (packages: seq<AppPackage>, err: Outcome<string>)
    ensures output.Err? ==> packages == before && err == Fail(output.error)
    ensures output.Ok? ==> packages == before + Classified(PackageNames(Lines(output.value)), packageType, disabled) && err == Pass
  {
    packages := before;
    if output.Err? {
      return packages, Fail(output.error);
    }
    var lines := Lines(output.value);
    var i := 0;
    while i < |lines|
      invariant 0 <= i <= |lines|
      invariant packages == before + Classified(PackageNames(lines[..i]), packageType, disabled)
    {
      var line := TrimSpace(lines[i]);
      PackageNamesStep(lines, i, line);
      if HasPrefix(line, PackageKey) {
        var name := TrimPrefix(line, PackageKey);
        var state := Enabled;
        if name in disabled {
          state := Disabled;
        }
        ClassifiedSnoc(PackageNames(lines[..i]), name, packageType, disabled);
        SnocAssoc(before, Classified(PackageNames(lines[..i]), packageType, disabled), AppPackage(name, packageType, state));
        packages := packages + [AppPackage(name, packageType, state)];
      }
      i := i + 1;
    }
    assert lines[..|lines|] == lines;
    return packages, Pass;
  }

  lemma ClassifiedSnoc(names: seq<string>, name: string, packageType: string, disabled: set<string>)
    ensures Classified(names + [name], packageType, disabled)
      == Classified(names, packageType, disabled) + [AppPackage(name, packageType, StateOf(name, disabled))]
  {
    assert (names + [name])[..|names|] == names;
  }

  /** What ListPackages returns, given the device and what the three listings gave. */
  function PackagesOf(deviceId: string, disabledOutput: Result<string, string>,
                      systemOutput: Result<string, string>, userOutput: Result<string, string>): Result<seq<AppPackage>, string>
  {
    if deviceId == "" then Err("no device specified")
    else
      var disabled := DisabledSet(disabledOutput);
      if systemOutput.Err? then Err("failed to list system packages: " + systemOutput.error)
      else if userOutput.Err? then Err("failed to list user packages: " + userOutput.error)
      else Ok(Classified(PackageNames(Lines(systemOutput.value)), "system", disabled)
              + Classified(PackageNames(Lines(userOutput.value)), "user", disabled))
  }

  /** ListPackages: the disabled set first, then the system packages, then the user packages. */
  method ListPackages(deviceId: string, disabledOutput: Result<string, string>,
                      systemOutput: Result<string, string>, userOutput: Result<string, string>)
    returns (r: Result<seq<AppPackage>, string>)
    ensures r == PackagesOf(deviceId, disabledOutput, systemOutput, userOutput)
  {
    if deviceId == "" {
      return Err("no device specified");
    }
    var disabled := CollectDisabled(disabledOutput);
    var packages, err := Fetch(systemOutput, "system", disabled, []);
    if err.Fail? {
      return Err("failed to list system packages: " + err.error);
    }
    assert packages == Classified(PackageNames(Lines(systemOutput.value)), "system", disabled);
    packages, err := Fetch(userOutput, "user", disabled, packages);
    if err.Fail? {
      return Err("failed to list user packages: " + err.error);
    }
    return Ok(packages);
  }

  // ---------------------------------------------------------------------------
  // Package properties
  // ---------------------------------------------------------------------------

  /** A classified package keeps its name and type, and is disabled exactly when its name is in
      the disabled set. */
  lemma {:induction false} ClassifiedAt(names: seq<string>, packageType: string, disabled: set<string>, i: nat)
    requires i < |names|
    ensures var p := Classified(names, packageType, disabled)[i];
      p.name == names[i] && p.packageType == packageType
      && (p.state == Disabled <==> names[i] in disabled) && (p.state == Enabled <==> names[i] !in disabled)
  {
    assert Disabled[0] == 'd' && Enabled[0] == 'e';
    if i < |names| - 1 {
      ClassifiedAt(names[..|names| - 1], packageType, disabled, i);
    }
  }

  /** The listing fails exactly when no device is given or either package listing fails. */
  lemma PackagesErrors(deviceId: string, disabledOutput: Result<string, string>,
                       systemOutput: Result<string, string>, userOutput: Result<string, string>)
    ensures PackagesOf(deviceId, disabledOutput, systemOutput, userOutput).Err?
      <==> deviceId == "" || systemOutput.Err? || userOutput.Err?
  {
  }

  /** A successful listing holds the system packages, then the user packages, each in its
      listing's order, each disabled exactly when the `-d` listing names it; a failed `-d`
      listing leaves every package enabled. */
  lemma PackagesListed(deviceId: string, disabledOutput: Result<string, string>,
                       systemOutput: Result<string, string>, userOutput: Result<string, string>, i: nat)
    requires PackagesOf(deviceId, disabledOutput, systemOutput, userOutput).Ok?
    requires i < |PackagesOf(deviceId, disabledOutput, systemOutput, userOutput).value|
    ensures var sys := PackageNames(Lines(systemOutput.value));
      var user := PackageNames(Lines(userOutput.value));
      var p := PackagesOf(deviceId, disabledOutput, systemOutput, userOutput).value[i];
      && |PackagesOf(deviceId, disabledOutput, systemOutput, userOutput).value| == |sys| + |user|
      && (i < |sys| ==> p.name == sys[i] && p.packageType == "system")
      && (i >= |sys| ==> p.name == user[i - |sys|] && p.packageType == "user")
      && (p.state == Disabled <==> disabledOutput.Ok? && p.name in PackageNames(Lines(disabledOutput.value)))
  {
    var sys := PackageNames(Lines(systemOutput.value));
    var user := PackageNames(Lines(userOutput.value));
    var disabled := DisabledSet(disabledOutput);
    if disabledOutput.Ok? {
      NameSetMembers(PackageNames(Lines(disabledOutput.value)));
    }
    assert PackagesOf(deviceId, disabledOutput, systemOutput, userOutput).value
      == Classified(sys, "system", disabled) + Classified(user, "user", disabled);
    SystemThenUser(sys, user, disabled, i);
  }

  lemma SystemThenUser(sys: seq<string>, user: seq<string>, disabled: set<string>, i: nat)
    requires i < |sys| + |user|
    ensures var ps := Classified(sys, "system", disabled) + Classified(user, "user", disabled);
      && |ps| == |sys| + |user|
      && (i < |sys| ==> ps[i].name == sys[i] && ps[i].packageType == "system")
      && (i >= |sys| ==> ps[i].name == user[i - |sys|] && ps[i].packageType == "user")
      && (ps[i].state == Disabled <==> ps[i].name in disabled)
  {
    if i < |sys| {
      ClassifiedAt(sys, "system", disabled, i);
    } else {
      ClassifiedAt(user, "user", disabled, i - |sys|);
    }
  }

  /** A listed package sits after the packages of all earlier lines. */
  lemma PackageAtLine(lines: seq<string>, i: nat)
    requires i < |lines| && PackageName(lines[i]).Some?
    ensures var k := |PackageNames(lines[..i])|;
      k < |PackageNames(lines)| && PackageNames(lines)[k] == PackageName(lines[i]).value
  {
    CollectedAt(lines, i, PackageName);
  }

  /** The line `package:name` names the package `name`, for a name that does not end in white
      space; a line without the prefix names none. */
  lemma ParsePackageLine(name: string, line: string)
    requires name != [] ==> !IsSpace(name[|name| - 1])
    requires !HasPrefix(TrimSpace(line), PackageKey)
    ensures PackageName(PackageKey + name) == Some(name)
    ensures PackageName(line) == None
  {
    var s := PackageKey + name;
    assert s[0] == 'p';
    assert s[|s| - 1] == if name == [] then ':' else name[|name| - 1];
    TrimSpaceOfTrimmed(s);
    assert s[..|PackageKey|] == PackageKey;
    assert s[|PackageKey|..] == name;
  }
}
