/**
 A J2534 session: a DLL and a device opened through it. The DLL lookup, the
 device-name enumeration and the device builder are parameters; the session
 decides which device to open, reports its status and selects channels.
 */
module Sharp2534Session {
  import opened Base
  import opened Text
  import opened Sequences
  import opened J2534Objects

  /** A device channel and the logical channels opened on it. */
  datatype J2534Channel = J2534Channel(channelId: uint32, logicalChannels: seq<J2534Channel>)

  /** The parts of a J2534 DLL the session reads. */
  datatype J2534Dll = J2534Dll(longName: string, dllVersion: JVersion, dllStatus: PTInstanceStatus, detailedString: string)

  /** The parts of a J2534 device the session reads. */
  datatype J2534Device = J2534Device(
    deviceName: string,
    version: JVersion,
    deviceStatus: PTInstanceStatus,
    detailedString: string,
    deviceChannels: seq<J2534Channel>)

  datatype Session = Session(dll: J2534Dll, device: J2534Device)

  datatype SessionError =
    | NoMatchingDll(dllNameFilter: string)             // NullReferenceException
    | NoDevicesFound                                   // NullReferenceException
    | NoDeviceMatchesFilter(deviceNameFilter: string)  // NullReferenceException
    | DeviceBuildFailed(cause: string)                 // InvalidOperationException wrapping the cause
    | IndexOutOfRange(index: int)                      // IndexOutOfRangeException

  /** `SessionStatus`: INITIALIZED only when both the DLL and the device are. */
  function SessionStatus(s: Session): (r: PTInstanceStatus)
    ensures r == INITIALIZED <==> s.dll.dllStatus == INITIALIZED && s.device.deviceStatus == INITIALIZED
    ensures r.NULL? <==> (s.dll.dllStatus.NULL? || s.device.deviceStatus.NULL?)
  {
    if s.dll.dllStatus == INITIALIZED && s.device.deviceStatus == INITIALIZED then INITIALIZED else NULL
  }

  /** The marker of a device another program holds open. */
  const InUseMarker: string := "IN USE"

  predicate IsFree(name: string) {
    !Contains(ToUpperAscii(name), InUseMarker)
  }

  predicate Matches(name: string, deviceNameFilter: string) {
    Contains(name, deviceNameFilter)
  }

  /** The test the constructor applies to a device name: free without a filter, containing the filter with one. */
  predicate Selectable(name: string, deviceNameFilter: string) {
    if deviceNameFilter == "" then IsFree(name) else Matches(name, deviceNameFilter)
  }

  /**
   The device name the constructor opens: with no filter, the first device
   not marked in use; with a filter, the first name containing it. None is
   `null`.
   */
  function ChooseDeviceName(names: seq<string>, deviceNameFilter: string): (r: Option<string>)
    ensures r.Some? ==> r.value in names
    ensures deviceNameFilter == "" ==> (r.None? <==> forall i :: 0 <= i < |names| ==> !IsFree(names[i]))
    ensures deviceNameFilter == "" && r.Some? ==> IsFree(r.value)
    ensures deviceNameFilter != "" ==> (r.None? <==> forall i :: 0 <= i < |names| ==> !Matches(names[i], deviceNameFilter))
    ensures deviceNameFilter != "" && r.Some? ==> Matches(r.value, deviceNameFilter)
    ensures r.Some? ==> exists i :: 0 <= i < |names| && names[i] == r.value
                                    && forall j :: 0 <= j < i ==> !Selectable(names[j], deviceNameFilter)
  {
    FirstOrNone(names, (n: string) => Selectable(n, deviceNameFilter))
  }

  /** With a filter, the chosen device is the first listed one that matches. */
  lemma {:induction false} ChoosesFirstMatch(before: seq<string>, name: string, after: seq<string>, deviceNameFilter: string)
    requires deviceNameFilter != "" && Matches(name, deviceNameFilter)
    requires forall i :: 0 <= i < |before| ==> !Matches(before[i], deviceNameFilter)
    ensures ChooseDeviceName(before + [name] + after, deviceNameFilter) == Some(name)
    decreases |before|
  {
    var names := before + [name] + after;
    if |before| == 0 {
      assert names[0] == name;
    } else {
      assert names[1..] == before[1..] + [name] + after;
      ChoosesFirstMatch(before[1..], name, after, deviceNameFilter);
    }
  }

  /** Without a filter, the chosen device is the first listed one not marked in use. */
  lemma {:induction false} ChoosesFirstFree(before: seq<string>, name: string, after: seq<string>)
    requires IsFree(name)
    requires forall i :: 0 <= i < |before| ==> !IsFree(before[i])
    ensures ChooseDeviceName(before + [name] + after, "") == Some(name)
    decreases |before|
  {
    var names := before + [name] + after;
    if |before| == 0 {
      assert names[0] == name;
    } else {
      assert names[1..] == before[1..] + [name] + after;
      ChoosesFirstFree(before[1..], name, after);
    }
  }

  /**
   `new Sharp2534Session(Version, DllNameFilter, DeviceNameFilter)`: find the
   DLL, list its devices, pick a name, and build the device; each step's
   failure is an exception.
   */
  function NewSession(
    version: JVersion,
    dllNameFilter: string,
    deviceNameFilter: string,
    findDllByName: (string, JVersion) -> Option<J2534Dll>,
    findConnectedDeviceNames: J2534Dll -> seq<string>,
    buildDevice: (J2534Dll, Option<string>) -> Result<J2534Device, string>): (r: Result<Session, SessionError>)
    ensures r == Failure(NoMatchingDll(dllNameFilter)) <==> findDllByName(dllNameFilter, version).None?
    ensures r == Failure(NoDevicesFound) <==>
              findDllByName(dllNameFilter, version).Some?
              && |findConnectedDeviceNames(findDllByName(dllNameFilter, version).value)| == 0
    ensures r == Failure(NoDeviceMatchesFilter(deviceNameFilter)) <==>
              findDllByName(dllNameFilter, version).Some?
              && var names := findConnectedDeviceNames(findDllByName(dllNameFilter, version).value);
                 |names| > 0 && deviceNameFilter != ""
                 && forall i :: 0 <= i < |names| ==> !Matches(names[i], deviceNameFilter)
    ensures r.Success? ==>
              findDllByName(dllNameFilter, version) == Some(r.value.dll)
              && var names := findConnectedDeviceNames(r.value.dll);
                 buildDevice(r.value.dll, ChooseDeviceName(names, deviceNameFilter)) == Success(r.value.device)
    ensures r.Success? && deviceNameFilter != "" ==>
              exists name :: name in findConnectedDeviceNames(r.value.dll) && Matches(name, deviceNameFilter)
                             && buildDevice(r.value.dll, Some(name)) == Success(r.value.device)
    ensures r.Failure? ==> !r.error.IndexOutOfRange?
    ensures findDllByName(dllNameFilter, version).Some? ==>
              var dll := findDllByName(dllNameFilter, version).value;
              var names := findConnectedDeviceNames(dll);
              |names| > 0 && (deviceNameFilter == "" || exists i :: 0 <= i < |names| && Matches(names[i], deviceNameFilter)) ==>
                match buildDevice(dll, ChooseDeviceName(names, deviceNameFilter))
                case Success(device) => r == Success(Session(dll, device))
                case Failure(cause) => r == Failure(DeviceBuildFailed(cause))
    ensures r.Failure? && r.error.DeviceBuildFailed? ==>
              findDllByName(dllNameFilter, version).Some?
              && var dll := findDllByName(dllNameFilter, version).value;
                 buildDevice(dll, ChooseDeviceName(findConnectedDeviceNames(dll), deviceNameFilter)) == Failure(r.error.cause)
  {
    match findDllByName(dllNameFilter, version)
    case None => Failure(NoMatchingDll(dllNameFilter))
    case Some(dll) =>
      var names := findConnectedDeviceNames(dll);
      if |names| == 0 then Failure(NoDevicesFound)
      else if deviceNameFilter != "" && FirstOrNone(names, (n: string) => Matches(n, deviceNameFilter)).None? then
        Failure(NoDeviceMatchesFilter(deviceNameFilter))
      else
        match buildDevice(dll, ChooseDeviceName(names, deviceNameFilter))
        case Failure(cause) => Failure(DeviceBuildFailed(cause))
        case Success(device) => Success(Session(dll, device))
  }

  /**
   With a filter, a session whose DLL is found opens the first listed device
   containing the filter: the device built from that name, or the build's
   failure wrapped.
   */
  lemma SessionOpensFirstMatch(
    version: JVersion,
    dllNameFilter: string,
    deviceNameFilter: string,
    findDllByName: (string, JVersion) -> Option<J2534Dll>,
    findConnectedDeviceNames: J2534Dll -> seq<string>,
    buildDevice: (J2534Dll, Option<string>) -> Result<J2534Device, string>,
    before: seq<string>, name: string, after: seq<string>)
    requires findDllByName(dllNameFilter, version).Some?
    requires findConnectedDeviceNames(findDllByName(dllNameFilter, version).value) == before + [name] + after
    requires deviceNameFilter != "" && Matches(name, deviceNameFilter)
    requires forall i :: 0 <= i < |before| ==> !Matches(before[i], deviceNameFilter)
    ensures var dll := findDllByName(dllNameFilter, version).value;
            NewSession(version, dllNameFilter, deviceNameFilter, findDllByName, findConnectedDeviceNames, buildDevice)
            == match buildDevice(dll, Some(name))
               case Success(device) => Success(Session(dll, device))
               case Failure(cause) => Failure(DeviceBuildFailed(cause))
  {
    var names := before + [name] + after;
    ChoosesFirstMatch(before, name, after, deviceNameFilter);
    assert names[|before|] == name;
  }

  /**
   `SelectLogicalChannel(ChannelIndex, LogicalIndex)`: None (`null`) unless the
   device implements V0500; otherwise the logical channel, where an index
   outside either array throws.
   */
  function SelectLogicalChannel(s: Session, channelIndex: int, logicalIndex: int): (r: Result<Option<J2534Channel>, SessionError>)
    ensures s.device.version != V0500 ==> r == Success(None)
    ensures s.device.version == V0500 ==>
              (r.Success? <==> 0 <= channelIndex < |s.device.deviceChannels|
                               && 0 <= logicalIndex < |s.device.deviceChannels[channelIndex].logicalChannels|)
    ensures r.Success? && s.device.version == V0500 ==>
              r.value == Some(s.device.deviceChannels[channelIndex].logicalChannels[logicalIndex])
    ensures r.Failure? ==> r.error.IndexOutOfRange?
  {
    if s.device.version != V0500 then Success(None)
    else if !(0 <= channelIndex < |s.device.deviceChannels|) then Failure(IndexOutOfRange(channelIndex))
    else
      var logical := s.device.deviceChannels[channelIndex].logicalChannels;
      if !(0 <= logicalIndex < |logical|) then Failure(IndexOutOfRange(logicalIndex))
      else Success(Some(logical[logicalIndex]))
  }

  /** Channel selection reads only the device: the DLL and the statuses play no part. */
  lemma SelectionIgnoresDll(s: Session, dll: J2534Dll, channelIndex: int, logicalIndex: int)
    ensures SelectLogicalChannel(s.(dll := dll), channelIndex, logicalIndex) == SelectLogicalChannel(s, channelIndex, logicalIndex)
  {
  }

  /** The text between the DLL's and the device's detailed strings. */
  const DetailSeparator: string := "\n\n"

  /** `ToDetailedString`: the DLL's detailed string, a blank line, then the device's. */
  function ToDetailedString(s: Session): (r: string)
    ensures |r| == |s.dll.detailedString| + 2 + |s.device.detailedString|
    ensures StartsWith(r, s.dll.detailedString)
    ensures r[|s.dll.detailedString|..] == DetailSeparator + s.device.detailedString
  {
    s.dll.detailedString + DetailSeparator + s.device.detailedString
  }

  /**
   When the DLL's text has no blank line and does not end in a newline, the
   first blank line in the detailed string marks where the DLL part ends, so
   both parts can be read back.
   */
  lemma DetailedStringSplits(s: Session)
    requires !Contains(s.dll.detailedString, DetailSeparator)
    requires |s.dll.detailedString| == 0 || s.dll.detailedString[|s.dll.detailedString| - 1] != '\n'
    ensures IndexOf(ToDetailedString(s), DetailSeparator) == Some(|s.dll.detailedString|)
  {
    var d := s.dll.detailedString;
    var r := ToDetailedString(s);
    forall j | 0 <= j < |d|
      ensures !StartsWith(r[j..], DetailSeparator)
    {
      if StartsWith(r[j..], DetailSeparator) && j + 2 <= |d| {
        assert r[j..][..2] == r[j..j + 2] == d[j..j + 2];
        ContainsAt(d, DetailSeparator, j);
      }
    }
    assert r[|d|..|d| + 2] == DetailSeparator;
    IndexOfFinds(r, DetailSeparator, |d|);
  }

  /** An occurrence at position `j` makes `Contains` true. */
  lemma {:induction false} ContainsAt(s: string, pattern: string, j: nat)
    requires j + |pattern| <= |s| && s[j..j + |pattern|] == pattern
    ensures Contains(s, pattern)
    decreases j
  {
    if j == 0 {
      assert s[..|pattern|] == pattern;
    } else {
      assert s[1..][j - 1..j - 1 + |pattern|] == s[j..j + |pattern|];
      ContainsAt(s[1..], pattern, j - 1);
    }
  }

  /** `IndexOf` finds an occurrence at `at` when none starts earlier. */
  lemma {:induction false} IndexOfFinds(s: string, pattern: string, at: nat)
    requires at + |pattern| <= |s| && s[at..at + |pattern|] == pattern
    requires forall j :: 0 <= j < at ==> !StartsWith(s[j..], pattern)
    ensures IndexOf(s, pattern) == Some(at)
    decreases at
  {
    if at == 0 {
      assert StartsWith(s, pattern);
    } else {
      assert s[0..] == s;
      var t := s[1..];
      assert t[at - 1..at - 1 + |pattern|] == s[at..at + |pattern|];
      forall j | 0 <= j < at - 1
        ensures !StartsWith(t[j..], pattern)
      {
        assert t[j..] == s[j + 1..];
      }
      IndexOfFinds(t, pattern, at - 1);
    }
  }
}
