/** The Windows path of `webcam_info`: DirectShow enumeration of the
    video-input device category. Every COM call is replaced by the status
    it returns and the data it yields, so the model is the selection and
    gating logic the source builds around those calls. */
module DirectShow {
  import opened Options
  import opened WebcamInfo
  import opened Summaries

  /** A COM status code: a signed 32-bit integer. */
  type HResult = x: int | -0x8000_0000 <= x < 0x8000_0000

  /** `SUCCEEDED(hr)`: every non-negative code, so `S_FALSE` too. */
  predicate Succeeded(hr: HResult)
  {
    hr >= 0
  }

  const S_OK: HResult := 0
  const S_FALSE: HResult := 1
  /** 0x80040216 read as a signed 32-bit value. */
  const VFW_E_NOT_FOUND: HResult := -2147220970

  /** The media subtype GUID of a capture format. */
  datatype Subtype = Yuy2 | Mjpg | OtherSubtype(guid: nat)

  /** One `GetStreamCaps` call: its status, whether the returned media type's
      formattype is `FORMAT_VideoInfo`, the bitmap header's width and height
      (32-bit signed, so a top-down bitmap has a negative height), and the
      subtype. */
  datatype CapsEntry = CapsEntry(status: HResult, videoInfo: bool, width: int, height: int, subtype: Subtype)

  /** One pin yielded by `IEnumPins::Next`: its direction, the status of
      `QueryInterface(IAMStreamConfig)`, the status of
      `GetNumberOfCapabilities`, and one entry per capability index. */
  datatype Pin = Pin(output: bool, configStatus: HResult, countStatus: HResult, caps: seq<CapsEntry>)

  /** A capture filter: the status of `EnumPins` and the pins it yields. */
  datatype Filter = Filter(enumStatus: HResult, pins: seq<Pin>)

  /** One device moniker yielded by `IEnumMoniker::Next`: the status of
      `BindToStorage`, the two property reads with the names they yield,
      the status of `BindToObject` and the filter it binds to. */
  datatype Moniker = Moniker(storageStatus: HResult,
                             descriptionStatus: HResult, description: string,
                             friendlyNameStatus: HResult, friendlyName: string,
                             bindStatus: HResult, filter: Filter)

  /** The status `GetVideoParameters` returns and the values it leaves in
      its three reference parameters. */
  datatype Parameters = Parameters(status: HResult, summary: Summary)

  /** The subtype test of the caps loop. */
  function Classify(t: Subtype): (f: PixelFormat)
    ensures f == Yuyv <==> t == Yuy2
    ensures f == Mjpeg <==> t == Mjpg
    ensures f == Unknown <==> t.OtherSubtype?
  {
    match t
    case Yuy2 => Yuyv
    case Mjpg => Mjpeg
    case OtherSubtype(_) => Unknown
  }

  /** What a successful `GetStreamCaps` contributes: geometry only when the
      formattype is `FORMAT_VideoInfo`, a format in every case. */
  function Observe(c: CapsEntry): Observation
  {
    Observation(c.videoInfo, c.width, c.height, Classify(c.subtype))
  }

  /** The observations of the entries whose `GetStreamCaps` succeeded, in order. */
  function Observations(caps: seq<CapsEntry>): seq<Observation>
    decreases |caps|
  {
    if caps == [] then []
    else
      var last := caps[|caps| - 1];
      Observations(caps[..|caps| - 1]) + (if Succeeded(last.status) then [Observe(last)] else [])
  }

  /** One more entry adds its observation when its call succeeded. */
  lemma ObservationsSnoc(caps: seq<CapsEntry>, i: nat)
    requires i < |caps|
    ensures Observations(caps[..i + 1]) ==
            Observations(caps[..i]) + if Succeeded(caps[i].status) then [Observe(caps[i])] else []
  {
    assert caps[..i + 1][..i] == caps[..i];
  }

  /** The index of the first output pin, the only one the pin loop inspects
      before its `break`. */
  function FirstOutput(pins: seq<Pin>): (r: Option<nat>)
    ensures r.Some? ==> r.value < |pins| && pins[r.value].output &&
                        forall q :: 0 <= q < r.value ==> !pins[q].output
    ensures r.None? ==> forall q :: 0 <= q < |pins| ==> !pins[q].output
    decreases |pins|
  {
    if pins == [] then None
    else if pins[0].output then Some(0)
    else match FirstOutput(pins[1..])
         case None => None
         case Some(i) => Some(i + 1)
  }

  /** The status of the last call made on the output pin, and the values
      its caps loop leaves. */
  function PinParameters(pin: Pin, init: Summary): Parameters
  {
    if !Succeeded(pin.configStatus) then Parameters(pin.configStatus, init)
    else if !Succeeded(pin.countStatus) then Parameters(pin.countStatus, init)
    else if pin.caps == [] then Parameters(pin.countStatus, init)
    else Parameters(pin.caps[|pin.caps| - 1].status, Fold(init, Observations(pin.caps)))
  }

  /** The outcome of `GetVideoParameters` on a filter, starting from `init`. */
  function VideoParameters(f: Filter, init: Summary): Parameters
  {
    if !Succeeded(f.enumStatus) then Parameters(f.enumStatus, init)
    else match FirstOutput(f.pins)
         case None => Parameters(f.enumStatus, init)
         case Some(p) => PinParameters(f.pins[p], init)
  }

  /** The `for` loop of `GetVideoParameters` over the capability indices of
      the output pin: each `GetStreamCaps` status overwrites `hr`, and a
      successful entry updates the reference parameters. */
  method ReadCaps(caps: seq<CapsEntry>, hr0: HResult, width0: int, height0: int, format0: PixelFormat)
    returns (hr: HResult, width: int, height: int, format: PixelFormat)
    ensures hr == if caps == [] then hr0 else caps[|caps| - 1].status
    ensures Summary(width, height, format) == Fold(Summary(width0, height0, format0), Observations(caps))
  {
    ghost var init := Summary(width0, height0, format0);
    hr, width, height, format := hr0, width0, height0, format0;
    var i := 0;
    while i < |caps|
      invariant i <= |caps|
      invariant hr == if i == 0 then hr0 else caps[i - 1].status
      invariant Summary(width, height, format) == Fold(init, Observations(caps[..i]))
    {
      var entry := caps[i];
      ObservationsSnoc(caps, i);
      FoldSnoc(init, Observations(caps[..i]), Observe(entry));
      hr := entry.status;
      if Succeeded(hr) {
        if entry.videoInfo {
          width := Max(width, entry.width);
          height := Max(height, entry.height);
        }
        format := Classify(entry.subtype);
      } else {
        assert Observations(caps[..i]) + [] == Observations(caps[..i]);
      }
      i := i + 1;
    }
    assert caps[..i] == caps;
  }

  /** `GetVideoParameters`: walks the pins up to the first output pin, then
      its capability entries, updating the reference parameters in place and
      returning the status of the last call made. */
  method GetVideoParameters(filter: Filter, width0: int, height0: int, format0: PixelFormat)
    returns (hr: HResult, width: int, height: int, format: PixelFormat)
    ensures Parameters(hr, Summary(width, height, format)) ==
            VideoParameters(filter, Summary(width0, height0, format0))
  {
    ghost var init := Summary(width0, height0, format0);
    width, height, format := width0, height0, format0;
    hr := filter.enumStatus;
    if Succeeded(hr) {
      var p := 0;
      while p < |filter.pins|
        invariant p <= |filter.pins|
        invariant forall q :: 0 <= q < p ==> !filter.pins[q].output
        invariant hr == filter.enumStatus && Summary(width, height, format) == init
      {
        var pin := filter.pins[p];
        if pin.output {
          ghost var expected := PinParameters(pin, init);
          assert VideoParameters(filter, init) == expected by {
            assert FirstOutput(filter.pins) == Some(p);
          }
          hr := pin.configStatus;
          if Succeeded(hr) {
            hr := pin.countStatus;
            if Succeeded(hr) {
              hr, width, height, format := ReadCaps(pin.caps, hr, width, height, format);
            }
          }
          assert Parameters(hr, Summary(width, height, format)) == expected;
          break;
        }
        p := p + 1;
      }
    }
  }

  /** `get_devices_info`'s decision for one moniker: a record when every
      step succeeds, nothing otherwise. The record starts from width and
      height 0 and the value-initialised format `defaultFormat`. */
  function DeviceRecord(m: Moniker, defaultFormat: PixelFormat): Option<Info>
  {
    if !Succeeded(m.storageStatus) then None
    else
      var nameStatus := if Succeeded(m.descriptionStatus) then m.descriptionStatus else m.friendlyNameStatus;
      var name := if Succeeded(m.descriptionStatus) then m.description else m.friendlyName;
      if !Succeeded(nameStatus) || !Succeeded(m.bindStatus) then None
      else
        var p := VideoParameters(m.filter, Summary(0, 0, defaultFormat));
        if Succeeded(p.status) then Some(Info(name, p.summary.width, p.summary.height, p.summary.format))
        else None
  }

  /** One decision per moniker, in enumeration order. */
  function Records(ms: seq<Moniker>, defaultFormat: PixelFormat): seq<Option<Info>>
  {
    seq(|ms|, i requires 0 <= i < |ms| => DeviceRecord(ms[i], defaultFormat))
  }

  lemma RecordsSnoc(ms: seq<Moniker>, i: nat, defaultFormat: PixelFormat)
    requires i < |ms|
    ensures Records(ms[..i + 1], defaultFormat) == Records(ms[..i], defaultFormat) + [DeviceRecord(ms[i], defaultFormat)]
  {
  }

  /** The records of the included monikers, in enumeration order. */
  function DevicesInfo(ms: seq<Moniker>, defaultFormat: PixelFormat): seq<Info>
  {
    Present(Records(ms, defaultFormat))
  }

  /** One pass of `get_devices_info`'s moniker loop: the calls on one
      moniker, and the record it appends when every call succeeds. */
  method ReadMoniker(m: Moniker, defaultFormat: PixelFormat) returns (record: Option<Info>)
    ensures record == DeviceRecord(m, defaultFormat)
  {
    record := None;
    var width, height, format := 0, 0, defaultFormat;
    var hr := m.storageStatus;
    if !Succeeded(hr) {
      return;
    }
    var name := m.description;
    hr := m.descriptionStatus;
    if !Succeeded(hr) {
      hr := m.friendlyNameStatus;
      name := m.friendlyName;
    }
    if Succeeded(hr) {
      hr := m.bindStatus;
      if Succeeded(hr) {
        hr, width, height, format := GetVideoParameters(m.filter, width, height, format);
        if Succeeded(hr) {
          record := Some(Info(name, width, height, format));
        }
      }
    }
  }

  /** `get_devices_info`: the moniker loop that appends one record per device
      whose every call succeeds. */
  method GetDevicesInfo(monikers: seq<Moniker>, defaultFormat: PixelFormat) returns (list: seq<Info>)
    ensures list == DevicesInfo(monikers, defaultFormat)
  {
    list := [];
    var i := 0;
    while i < |monikers|
      invariant i <= |monikers|
      invariant list == DevicesInfo(monikers[..i], defaultFormat)
    {
      RecordsSnoc(monikers, i, defaultFormat);
      PresentSnoc(Records(monikers[..i], defaultFormat), DeviceRecord(monikers[i], defaultFormat));
      var record := ReadMoniker(monikers[i], defaultFormat);
      if record.Some? {
        list := list + [record.value];
      }
      i := i + 1;
    }
    assert monikers[..i] == monikers;
  }

  /** `EnumerateDevices`: the status of `CoCreateInstance`, else that of
      `CreateClassEnumerator` with `S_FALSE` (an empty category) turned
      into the failure `VFW_E_NOT_FOUND`. */
  function EnumerateDevices(createStatus: HResult, classStatus: HResult): (hr: HResult)
    ensures Succeeded(hr) <==> Succeeded(createStatus) && Succeeded(classStatus) && classStatus != S_FALSE
    ensures Succeeded(hr) ==> hr == classStatus
  {
    if !Succeeded(createStatus) then createStatus
    else if classStatus == S_FALSE then VFW_E_NOT_FOUND
    else classStatus
  }

  /** The Windows `get_all_webcams`: the devices of the video-input category
      when COM initialisation and the enumerator succeed, and an empty list
      otherwise. */
  method GetAllWebcams(coInitStatus: HResult, createStatus: HResult, classStatus: HResult,
                       monikers: seq<Moniker>, defaultFormat: PixelFormat)
    returns (list: seq<Info>)
    ensures Succeeded(coInitStatus) && Succeeded(createStatus) && Succeeded(classStatus) && classStatus != S_FALSE
            ==> list == DevicesInfo(monikers, defaultFormat)
    ensures !Succeeded(coInitStatus) || !Succeeded(createStatus) || !Succeeded(classStatus) || classStatus == S_FALSE
            ==> list == []
  {
    list := [];
    var hr := coInitStatus;
    if Succeeded(hr) {
      hr := EnumerateDevices(createStatus, classStatus);
      if Succeeded(hr) {
        list := GetDevicesInfo(monikers, defaultFormat);
      }
    }
  }

  // ----- What the specification functions mean -----

  /** The observations are exactly those of the entries whose
      `GetStreamCaps` succeeded. */
  lemma {:induction false} ObservationsMembers(caps: seq<CapsEntry>)
    ensures forall o :: o in Observations(caps) <==>
              exists k :: 0 <= k < |caps| && Succeeded(caps[k].status) && o == Observe(caps[k])
    decreases |caps|
  {
    if caps != [] {
      var n := |caps| - 1;
      var p := caps[..n];
      ObservationsMembers(p);
      assert forall k :: 0 <= k < n ==> p[k] == caps[k];
    }
  }

  /** The entry at `k` is the last one whose `GetStreamCaps` succeeded. */
  predicate LastSucceeded(caps: seq<CapsEntry>, k: int)
  {
    0 <= k < |caps| && Succeeded(caps[k].status) &&
    forall j :: k < j < |caps| ==> !Succeeded(caps[j].status)
  }

  /** The last observation is that of the last successful entry. */
  lemma {:induction false} ObservationsLast(caps: seq<CapsEntry>, k: int)
    requires LastSucceeded(caps, k)
    ensures Observations(caps) != [] && Observations(caps)[|Observations(caps)| - 1] == Observe(caps[k])
    decreases |caps|
  {
    var n := |caps| - 1;
    if k < n {
      var p := caps[..n];
      assert LastSucceeded(p, k);
      ObservationsLast(p, k);
    }
  }

  /** No entry succeeded: no observation at all. */
  lemma {:induction false} ObservationsNone(caps: seq<CapsEntry>)
    requires forall k :: 0 <= k < |caps| ==> !Succeeded(caps[k].status)
    ensures Observations(caps) == []
    decreases |caps|
  {
    if caps != [] {
      ObservationsNone(caps[..|caps| - 1]);
    }
  }

  /** Width and height after the caps loop: the maximum of the starting
      values and the dimensions of every entry whose `GetStreamCaps`
      succeeded and whose formattype is `FORMAT_VideoInfo`. */
  lemma CapsGeometry(init: Summary, caps: seq<CapsEntry>)
    ensures var r := Fold(init, Observations(caps));
      r.width >= init.width && r.height >= init.height &&
      (forall k :: 0 <= k < |caps| && Succeeded(caps[k].status) && caps[k].videoInfo ==>
         r.width >= caps[k].width && r.height >= caps[k].height) &&
      (r.width == init.width ||
       exists k :: 0 <= k < |caps| && Succeeded(caps[k].status) && caps[k].videoInfo && r.width == caps[k].width) &&
      (r.height == init.height ||
       exists k :: 0 <= k < |caps| && Succeeded(caps[k].status) && caps[k].videoInfo && r.height == caps[k].height)
  {
    var obs := Observations(caps);
    var r := Fold(init, obs);
    ObservationsMembers(caps);
    FoldGeometry(init, obs);
    forall k | 0 <= k < |caps| && Succeeded(caps[k].status) && caps[k].videoInfo
      ensures r.width >= caps[k].width && r.height >= caps[k].height
    {
      var o := Observe(caps[k]);
      assert o in obs;
      var m :| 0 <= m < |obs| && obs[m] == o;
    }
    if r.width != init.width {
      var m :| 0 <= m < |obs| && obs[m].geometric && r.width == obs[m].width;
      assert obs[m] in obs;
      var k :| 0 <= k < |caps| && Succeeded(caps[k].status) && obs[m] == Observe(caps[k]);
    }
    if r.height != init.height {
      var m :| 0 <= m < |obs| && obs[m].geometric && r.height == obs[m].height;
      assert obs[m] in obs;
      var k :| 0 <= k < |caps| && Succeeded(caps[k].status) && obs[m] == Observe(caps[k]);
    }
  }

  /** Format after the caps loop: the classification of the last entry
      whose `GetStreamCaps` succeeded, whatever its formattype, and the
      starting format when none succeeded. */
  lemma CapsFormat(init: Summary, caps: seq<CapsEntry>)
    ensures (forall k :: 0 <= k < |caps| ==> !Succeeded(caps[k].status)) ==>
              Fold(init, Observations(caps)).format == init.format
    ensures forall k :: LastSucceeded(caps, k) ==>
              Fold(init, Observations(caps)).format == Classify(caps[k].subtype)
  {
    if forall k :: 0 <= k < |caps| ==> !Succeeded(caps[k].status) {
      ObservationsNone(caps);
    }
    forall k | LastSucceeded(caps, k)
      ensures Fold(init, Observations(caps)).format == Classify(caps[k].subtype)
    {
      ObservationsLast(caps, k);
      FoldFormat(init, Observations(caps));
    }
  }

  /** Pins after the first output pin are never inspected: replacing them
      changes nothing. */
  lemma LaterPinsIgnored(f: Filter, init: Summary, p: nat, rest: seq<Pin>)
    requires FirstOutput(f.pins) == Some(p)
    ensures VideoParameters(Filter(f.enumStatus, f.pins[..p + 1] + rest), init) == VideoParameters(f, init)
  {
    var pins' := f.pins[..p + 1] + rest;
    assert forall q :: 0 <= q <= p ==> pins'[q] == f.pins[q];
  }

  /** Every step a device needs, as the calls' own statuses: the storage
      bind, one of the two name reads, the object bind, `EnumPins`, and on
      the first output pin (if there is one) `QueryInterface`,
      `GetNumberOfCapabilities` and the last `GetStreamCaps` call. */
  predicate StepsSucceed(m: Moniker)
  {
    Succeeded(m.storageStatus) &&
    (Succeeded(m.descriptionStatus) || Succeeded(m.friendlyNameStatus)) &&
    Succeeded(m.bindStatus) &&
    Succeeded(m.filter.enumStatus) &&
    forall p :: 0 <= p < |m.filter.pins| && FirstOutput(m.filter.pins) == Some(p) ==>
      var pin := m.filter.pins[p];
      Succeeded(pin.configStatus) && Succeeded(pin.countStatus) &&
      (pin.caps == [] || Succeeded(pin.caps[|pin.caps| - 1].status))
  }

  /** A moniker yields a record exactly when every step succeeds; in
      particular a failing last `GetStreamCaps` drops the device. */
  lemma DeviceIncluded(m: Moniker, defaultFormat: PixelFormat)
    ensures DeviceRecord(m, defaultFormat).Some? <==> StepsSucceed(m)
  {
  }

  /** The record of an included device: its name is the Description, or
      the FriendlyName when the Description cannot be read; its width and
      height are the maxima (from 0) over the successful `FORMAT_VideoInfo`
      entries of the first output pin; its format is the classification of
      that pin's last successful entry, or `defaultFormat` when there is
      none. */
  lemma DeviceRecordContents(m: Moniker, defaultFormat: PixelFormat, info: Info)
    requires DeviceRecord(m, defaultFormat) == Some(info)
    ensures info.name == if Succeeded(m.descriptionStatus) then m.description else m.friendlyName
    ensures info.width >= 0 && info.height >= 0
    ensures FirstOutput(m.filter.pins).None? ==>
              info.width == 0 && info.height == 0 && info.format == defaultFormat
    ensures forall p, k :: (FirstOutput(m.filter.pins) == Some(p) && p < |m.filter.pins| &&
                            0 <= k < |m.filter.pins[p].caps| &&
                            Succeeded(m.filter.pins[p].caps[k].status) && m.filter.pins[p].caps[k].videoInfo) ==>
                info.width >= m.filter.pins[p].caps[k].width && info.height >= m.filter.pins[p].caps[k].height
    ensures forall p, k :: (FirstOutput(m.filter.pins) == Some(p) && p < |m.filter.pins| &&
                            LastSucceeded(m.filter.pins[p].caps, k)) ==>
                info.format == Classify(m.filter.pins[p].caps[k].subtype)
    ensures forall p :: (FirstOutput(m.filter.pins) == Some(p) && p < |m.filter.pins| &&
                         forall k :: 0 <= k < |m.filter.pins[p].caps| ==> !Succeeded(m.filter.pins[p].caps[k].status)) ==>
                info.format == defaultFormat
  {
    var init := Summary(0, 0, defaultFormat);
    match FirstOutput(m.filter.pins)
    case None =>
    case Some(p) =>
      var caps := m.filter.pins[p].caps;
      CapsGeometry(init, caps);
      CapsFormat(init, caps);
  }

  /** `get_devices_info` returns exactly the records of the included
      monikers, and never more records than monikers. */
  lemma DevicesInfoMembers(ms: seq<Moniker>, defaultFormat: PixelFormat)
    ensures |DevicesInfo(ms, defaultFormat)| <= |ms|
    ensures forall info :: info in DevicesInfo(ms, defaultFormat) <==>
              exists i :: 0 <= i < |ms| && DeviceRecord(ms[i], defaultFormat) == Some(info)
  {
    var rs := Records(ms, defaultFormat);
    PresentMembers(rs);
    forall info
      ensures Some(info) in rs <==> exists i :: 0 <= i < |ms| && DeviceRecord(ms[i], defaultFormat) == Some(info)
    {
      if Some(info) in rs {
        var i :| 0 <= i < |rs| && rs[i] == Some(info);
        assert DeviceRecord(ms[i], defaultFormat) == Some(info);
      }
      if exists i :: 0 <= i < |ms| && DeviceRecord(ms[i], defaultFormat) == Some(info) {
        var i :| 0 <= i < |ms| && DeviceRecord(ms[i], defaultFormat) == Some(info);
        assert rs[i] == Some(info);
      }
    }
  }

  /** A device with two capability entries, 640x480 MJPG then 1280x720 of
      an unrecognised subtype, is reported as 1280x720 `unknown`: the
      geometry from the larger entry, the format from the last one. */
  lemma TwoEntryScenario(name: string, defaultFormat: PixelFormat)
    ensures var caps := [CapsEntry(S_OK, true, 640, 480, Mjpg), CapsEntry(S_OK, true, 1280, 720, OtherSubtype(0))];
      var m := Moniker(S_OK, S_OK, name, S_OK, name, S_OK,
                       Filter(S_OK, [Pin(true, S_OK, S_OK, caps)]));
      DeviceRecord(m, defaultFormat) == Some(Info(name, 1280, 720, Unknown))
  {
    var caps := [CapsEntry(S_OK, true, 640, 480, Mjpg), CapsEntry(S_OK, true, 1280, 720, OtherSubtype(0))];
    assert caps[..1][..0] == [];
    assert Observations(caps[..1]) == [Observe(caps[0])];
    assert caps[..|caps| - 1] == caps[..1];
    assert Observations(caps) == [Observe(caps[0]), Observe(caps[1])];
    var init := Summary(0, 0, defaultFormat);
    FoldSnoc(init, [], Observe(caps[0]));
    FoldSnoc(init, [Observe(caps[0])], Observe(caps[1]));
    assert [] + [Observe(caps[0])] == [Observe(caps[0])];
    assert Fold(init, Observations(caps)) == Summary(1280, 720, Unknown);
    var m := Moniker(S_OK, S_OK, name, S_OK, name, S_OK, Filter(S_OK, [Pin(true, S_OK, S_OK, caps)]));
    assert FirstOutput(m.filter.pins) == Some(0);
  }
}
