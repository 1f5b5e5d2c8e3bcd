/** The Linux path of `webcam_info`: a scan of the `/dev` entries through
    the V4L2 ioctls. Every ioctl is replaced by the data it yields, so the
    model is the selection logic: which (format, frame size, frame
    interval) triples qualify, the running maxima and last format over
    them, and which devices are dropped. */
module Video4Linux {
  import opened Options
  import opened WebcamInfo
  import opened Summaries

  /** A `__u32` field of a V4L2 structure. */
  type U32 = x: int | 0 <= x < 0x1_0000_0000

  /** `static_cast<int>` of a `__u32`: the same 32 bits read as a signed
      two's-complement value. */
  function AsInt(u: U32): (r: int)
    ensures -0x8000_0000 <= r < 0x8000_0000
    ensures r % 0x1_0000_0000 == u
    ensures r >= 0 <==> u < 0x8000_0000
  {
    if u < 0x8000_0000 then u else u - 0x1_0000_0000
  }

  /** The `type` of a frame size or frame interval entry. */
  datatype EntryKind = Discrete | Continuous | Stepwise

  /** One `VIDIOC_ENUM_FRAMEINTERVALS` answer: its type and its discrete
      interval as a fraction of a second. */
  datatype Interval = Interval(kind: EntryKind, numerator: U32, denominator: U32)

  /** One `VIDIOC_ENUM_FRAMESIZES` answer: its type, its discrete width and
      height, and the intervals enumerated for that size. */
  datatype FrameSize = FrameSize(kind: EntryKind, width: U32, height: U32, intervals: seq<Interval>)

  /** One `VIDIOC_ENUM_FMT` answer: its description (one character per byte
      of the 32-byte field; a shorter string stands for a NUL-padded one)
      and the frame sizes enumerated for its pixel format. */
  datatype FormatDesc = FormatDesc(description: string, sizes: seq<FrameSize>)

  /** One `/dev` entry: its path, whether `open` succeeds, whether
      `VIDIOC_QUERYCAP` succeeds, the capability bits and card name it
      reports, and the formats `VIDIOC_ENUM_FMT` yields. */
  datatype Device = Device(path: string, opens: bool, queryCapOk: bool, capabilities: bv32,
                           card: string, formats: seq<FormatDesc>)

  const V4L2_CAP_VIDEO_CAPTURE: bv32 := 0x0000_0001

  /** The number of bytes of the description the classification reads. */
  const DescriptionBytes: nat := 32

  /** `pattern` occurs in `s` starting at index `i`. */
  predicate OccursAt(s: string, pattern: string, i: int)
  {
    0 <= i && i + |pattern| <= |s| && s[i..i + |pattern|] == pattern
  }

  /** `std::string::find(pattern) != npos`: the pattern occurs somewhere. */
  predicate Contains(s: string, pattern: string)
  {
    exists i :: 0 <= i <= |s| - |pattern| && OccursAt(s, pattern, i)
  }

  /** The substring test on the first 32 description bytes: "Motion-JPEG"
      before "YUYV". */
  function ClassifyDescription(d: string): PixelFormat
  {
    var name := d[..if |d| < DescriptionBytes then |d| else DescriptionBytes];
    if Contains(name, "Motion-JPEG") then Mjpeg
    else if Contains(name, "YUYV") then Yuyv
    else Unknown
  }

  /** Only the first 32 description bytes take part in the classification:
      whatever follows them changes nothing. */
  lemma ClassifyReadsFirst32(d: string, rest: string)
    requires |d| >= DescriptionBytes
    ensures ClassifyDescription(d + rest) == ClassifyDescription(d)
  {
    assert (d + rest)[..DescriptionBytes] == d[..DescriptionBytes];
  }

  /** `fps > 29` for fps = denominator / numerator, as an exact rational
      comparison on a positive numerator. */
  predicate FramesAbove29(i: Interval)
  {
    i.numerator > 0 && i.denominator > 29 * i.numerator
  }

  /** A (size, interval) pair counts: a discrete interval above 29 fps of a
      discrete frame size. */
  predicate Qualifies(size: FrameSize, ival: Interval)
  {
    ival.kind == Discrete && FramesAbove29(ival) && size.kind == Discrete
  }

  /** What a qualifying triple contributes to the running values. */
  function ModeOf(description: string, size: FrameSize): Observation
  {
    Observation(true, AsInt(size.width), AsInt(size.height), ClassifyDescription(description))
  }

  /** The contributions of one frame size's intervals, in order. */
  function IntervalModes(description: string, size: FrameSize, ivals: seq<Interval>): seq<Observation>
    decreases |ivals|
  {
    if ivals == [] then []
    else IntervalModes(description, size, ivals[..|ivals| - 1]) +
         (if Qualifies(size, ivals[|ivals| - 1]) then [ModeOf(description, size)] else [])
  }

  /** The contributions of one format's frame sizes, in order. */
  function SizeModes(description: string, sizes: seq<FrameSize>): seq<Observation>
    decreases |sizes|
  {
    if sizes == [] then []
    else
      var last := sizes[|sizes| - 1];
      SizeModes(description, sizes[..|sizes| - 1]) + IntervalModes(description, last, last.intervals)
  }

  /** The contributions of all formats, in scan order. */
  function FormatModes(fs: seq<FormatDesc>): seq<Observation>
    decreases |fs|
  {
    if fs == [] then []
    else
      var last := fs[|fs| - 1];
      FormatModes(fs[..|fs| - 1]) + SizeModes(last.description, last.sizes)
  }

  lemma IntervalModesSnoc(d: string, size: FrameSize, ivals: seq<Interval>, k: nat)
    requires k < |ivals|
    ensures IntervalModes(d, size, ivals[..k + 1]) ==
            IntervalModes(d, size, ivals[..k]) + if Qualifies(size, ivals[k]) then [ModeOf(d, size)] else []
  {
    assert ivals[..k + 1][..k] == ivals[..k];
  }

  lemma SizeModesSnoc(d: string, sizes: seq<FrameSize>, j: nat)
    requires j < |sizes|
    ensures SizeModes(d, sizes[..j + 1]) == SizeModes(d, sizes[..j]) + IntervalModes(d, sizes[j], sizes[j].intervals)
  {
    assert sizes[..j + 1][..j] == sizes[..j];
  }

  lemma FormatModesSnoc(fs: seq<FormatDesc>, i: nat)
    requires i < |fs|
    ensures FormatModes(fs[..i + 1]) == FormatModes(fs[..i]) + SizeModes(fs[i].description, fs[i].sizes)
  {
    assert fs[..i + 1][..i] == fs[..i];
  }

  /** The innermost loop of the Linux scan, over the frame intervals of one
      frame size of one format: each qualifying interval raises the maxima
      to the size's (cast) dimensions and sets the format from the
      description. */
  method ScanIntervals(description: string, size: FrameSize, width0: int, height0: int, format0: PixelFormat)
    returns (width: int, height: int, format: PixelFormat)
    ensures Summary(width, height, format) ==
            Fold(Summary(width0, height0, format0), IntervalModes(description, size, size.intervals))
  {
    ghost var init := Summary(width0, height0, format0);
    width, height, format := width0, height0, format0;
    var k := 0;
    while k < |size.intervals|
      invariant k <= |size.intervals|
      invariant Summary(width, height, format) == Fold(init, IntervalModes(description, size, size.intervals[..k]))
    {
      var ival := size.intervals[k];
      ghost var before := IntervalModes(description, size, size.intervals[..k]);
      IntervalModesSnoc(description, size, size.intervals, k);
      FoldSnoc(init, before, ModeOf(description, size));
      if ival.kind == Discrete {
        if FramesAbove29(ival) && size.kind == Discrete {
          width := Max(width, AsInt(size.width));
          height := Max(height, AsInt(size.height));
          format := ClassifyDescription(description);
        }
      }
      assert before + [] == before;
      k := k + 1;
    }
    assert size.intervals[..k] == size.intervals;
  }

  /** The format and frame-size loops of the Linux `get_all_webcams` for
      one device (the interval loop nested in them is `ScanIntervals`),
      starting from width and height 0 and the value-initialised format
      `defaultFormat`. */
  method ScanFormats(formats: seq<FormatDesc>, defaultFormat: PixelFormat)
    returns (width: int, height: int, format: PixelFormat)
    ensures Summary(width, height, format) == Fold(Summary(0, 0, defaultFormat), FormatModes(formats))
  {
    ghost var init := Summary(0, 0, defaultFormat);
    width, height, format := 0, 0, defaultFormat;
    var f := 0;
    while f < |formats|
      invariant f <= |formats|
      invariant Summary(width, height, format) == Fold(init, FormatModes(formats[..f]))
    {
      var desc := formats[f];
      ghost var atFormat := Summary(width, height, format);
      var s := 0;
      while s < |desc.sizes|
        invariant s <= |desc.sizes|
        invariant Summary(width, height, format) == Fold(atFormat, SizeModes(desc.description, desc.sizes[..s]))
      {
        var size := desc.sizes[s];
        width, height, format := ScanIntervals(desc.description, size, width, height, format);
        SizeModesSnoc(desc.description, desc.sizes, s);
        FoldAppend(atFormat, SizeModes(desc.description, desc.sizes[..s]),
                   IntervalModes(desc.description, size, size.intervals));
        s := s + 1;
      }
      assert desc.sizes[..s] == desc.sizes;
      FormatModesSnoc(formats, f);
      FoldAppend(init, FormatModes(formats[..f]), SizeModes(desc.description, desc.sizes));
      f := f + 1;
    }
    assert formats[..f] == formats;
  }

  /** The per-device decision: skip entries whose path lacks "video", that
      cannot be opened, whose `VIDIOC_QUERYCAP` fails or that cannot
      capture video, and drop devices left with a width or height of at
      most 0. */
  function DeviceRecord(d: Device, defaultFormat: PixelFormat): Option<Info>
  {
    if !Contains(d.path, "video") || !d.opens || !d.queryCapOk ||
       d.capabilities & V4L2_CAP_VIDEO_CAPTURE == 0
    then None
    else
      var r := Fold(Summary(0, 0, defaultFormat), FormatModes(d.formats));
      if r.width <= 0 || r.height <= 0 then None
      else Some(Info(d.card, r.width, r.height, r.format))
  }

  /** One decision per `/dev` entry, in directory order. */
  function Records(ds: seq<Device>, defaultFormat: PixelFormat): seq<Option<Info>>
  {
    seq(|ds|, n requires 0 <= n < |ds| => DeviceRecord(ds[n], defaultFormat))
  }

  lemma RecordsSnoc(ds: seq<Device>, n: nat, defaultFormat: PixelFormat)
    requires n < |ds|
    ensures Records(ds[..n + 1], defaultFormat) == Records(ds[..n], defaultFormat) + [DeviceRecord(ds[n], defaultFormat)]
  {
  }

  /** The records of the kept devices, in directory order. */
  function Webcams(ds: seq<Device>, defaultFormat: PixelFormat): seq<Info>
  {
    Present(Records(ds, defaultFormat))
  }

  /** One pass of the directory loop of the Linux `get_all_webcams`: the
      checks that `continue` past an entry, the scan, and the record it
      appends when both maxima are positive. */
  method ReadDevice(d: Device, defaultFormat: PixelFormat) returns (record: Option<Info>)
    ensures record == DeviceRecord(d, defaultFormat)
  {
    record := None;
    if !Contains(d.path, "video") || !d.opens || !d.queryCapOk ||
       d.capabilities & V4L2_CAP_VIDEO_CAPTURE == 0 {
      return;
    }
    var width, height, format := ScanFormats(d.formats, defaultFormat);
    if width <= 0 || height <= 0 {
      return;
    }
    record := Some(Info(d.card, width, height, format));
  }

  /** The Linux `get_all_webcams`: the directory loop over `/dev`. */
  method GetAllWebcams(devices: seq<Device>, defaultFormat: PixelFormat) returns (list: seq<Info>)
    ensures list == Webcams(devices, defaultFormat)
  {
    list := [];
    var i := 0;
    while i < |devices|
      invariant i <= |devices|
      invariant list == Webcams(devices[..i], defaultFormat)
    {
      RecordsSnoc(devices, i, defaultFormat);
      PresentSnoc(Records(devices[..i], defaultFormat), DeviceRecord(devices[i], defaultFormat));
      var record := ReadDevice(devices[i], defaultFormat);
      if record.Some? {
        list := list + [record.value];
      }
      i := i + 1;
    }
    assert devices[..i] == devices;
  }

  // ----- What the specification functions mean -----

  /** The triple (format `i`, size `j`, interval `k`) exists and qualifies. */
  predicate QualifiesAt(fs: seq<FormatDesc>, i: int, j: int, k: int)
  {
    0 <= i < |fs| && 0 <= j < |fs[i].sizes| && 0 <= k < |fs[i].sizes[j].intervals| &&
    Qualifies(fs[i].sizes[j], fs[i].sizes[j].intervals[k])
  }

  /** The (size `j`, interval `k`) pair of a size list exists and qualifies. */
  predicate SizeQualifiesAt(sizes: seq<FrameSize>, j: int, k: int)
  {
    0 <= j < |sizes| && 0 <= k < |sizes[j].intervals| && Qualifies(sizes[j], sizes[j].intervals[k])
  }

  /** A format has at least one qualifying (size, interval) pair. */
  ghost predicate HasQualifying(f: FormatDesc)
  {
    exists j, k :: SizeQualifiesAt(f.sizes, j, k)
  }

  lemma {:induction false} IntervalModesMembers(d: string, size: FrameSize, ivals: seq<Interval>)
    ensures forall o :: o in IntervalModes(d, size, ivals) ==> o == ModeOf(d, size)
    ensures IntervalModes(d, size, ivals) != [] <==>
              exists k :: 0 <= k < |ivals| && Qualifies(size, ivals[k])
    decreases |ivals|
  {
    if ivals != [] {
      var n := |ivals| - 1;
      var p := ivals[..n];
      IntervalModesMembers(d, size, p);
      assert forall k :: 0 <= k < n ==> p[k] == ivals[k];
    }
  }

  lemma {:induction false} SizeModesMembers(d: string, sizes: seq<FrameSize>)
    ensures forall o :: o in SizeModes(d, sizes) <==>
              exists j, k :: SizeQualifiesAt(sizes, j, k) && o == ModeOf(d, sizes[j])
    decreases |sizes|
  {
    if sizes != [] {
      var n := |sizes| - 1;
      var p := sizes[..n];
      var last := sizes[n];
      SizeModesMembers(d, p);
      IntervalModesMembers(d, last, last.intervals);
      assert forall j, k :: SizeQualifiesAt(p, j, k) <==> (j < n && SizeQualifiesAt(sizes, j, k));
      assert forall j :: 0 <= j < n ==> p[j] == sizes[j];
      forall o | o in SizeModes(d, sizes)
        ensures exists j, k :: SizeQualifiesAt(sizes, j, k) && o == ModeOf(d, sizes[j])
      {
        if o !in SizeModes(d, p) {
          var k :| 0 <= k < |last.intervals| && Qualifies(last, last.intervals[k]);
          assert SizeQualifiesAt(sizes, n, k);
        }
      }
      forall o | exists j, k :: SizeQualifiesAt(sizes, j, k) && o == ModeOf(d, sizes[j])
        ensures o in SizeModes(d, sizes)
      {
        var j, k :| SizeQualifiesAt(sizes, j, k) && o == ModeOf(d, sizes[j]);
        if j == n {
          var im := IntervalModes(d, last, last.intervals);
          assert im != [];
          assert im[0] in im;
        }
      }
    }
  }

  lemma {:induction false} FormatModesMembers(fs: seq<FormatDesc>)
    ensures forall o :: o in FormatModes(fs) <==>
              exists i, j, k :: QualifiesAt(fs, i, j, k) && o == ModeOf(fs[i].description, fs[i].sizes[j])
    decreases |fs|
  {
    if fs != [] {
      var n := |fs| - 1;
      var p := fs[..n];
      var last := fs[n];
      FormatModesMembers(p);
      SizeModesMembers(last.description, last.sizes);
      assert forall i, j, k :: QualifiesAt(p, i, j, k) <==> (i < n && QualifiesAt(fs, i, j, k));
      assert forall i :: 0 <= i < n ==> p[i] == fs[i];
      assert forall j, k :: SizeQualifiesAt(last.sizes, j, k) <==> QualifiesAt(fs, n, j, k);
      forall o | o in FormatModes(fs)
        ensures exists i, j, k :: QualifiesAt(fs, i, j, k) && o == ModeOf(fs[i].description, fs[i].sizes[j])
      {
        if o !in FormatModes(p) {
          var j, k :| SizeQualifiesAt(last.sizes, j, k) && o == ModeOf(last.description, last.sizes[j]);
          assert QualifiesAt(fs, n, j, k);
        }
      }
      forall o | exists i, j, k :: QualifiesAt(fs, i, j, k) && o == ModeOf(fs[i].description, fs[i].sizes[j])
        ensures o in FormatModes(fs)
      {
        var i, j, k :| QualifiesAt(fs, i, j, k) && o == ModeOf(fs[i].description, fs[i].sizes[j]);
        if i == n {
          assert SizeQualifiesAt(last.sizes, j, k);
        } else {
          assert QualifiesAt(p, i, j, k);
        }
      }
    }
  }

  /** The width and height of the scan: the maxima, from 0, over the
      (cast) sizes of every qualifying triple. */
  lemma ScanGeometry(fs: seq<FormatDesc>, defaultFormat: PixelFormat)
    ensures var r := Fold(Summary(0, 0, defaultFormat), FormatModes(fs));
      r.width >= 0 && r.height >= 0 &&
      (forall i, j, k :: QualifiesAt(fs, i, j, k) ==>
         r.width >= AsInt(fs[i].sizes[j].width) && r.height >= AsInt(fs[i].sizes[j].height)) &&
      (r.width == 0 || exists i, j, k :: QualifiesAt(fs, i, j, k) && r.width == AsInt(fs[i].sizes[j].width)) &&
      (r.height == 0 || exists i, j, k :: QualifiesAt(fs, i, j, k) && r.height == AsInt(fs[i].sizes[j].height))
  {
    var init := Summary(0, 0, defaultFormat);
    var obs := FormatModes(fs);
    var r := Fold(init, obs);
    FormatModesMembers(fs);
    FoldGeometry(init, obs);
    forall i, j, k | QualifiesAt(fs, i, j, k)
      ensures r.width >= AsInt(fs[i].sizes[j].width) && r.height >= AsInt(fs[i].sizes[j].height)
    {
      var o := ModeOf(fs[i].description, fs[i].sizes[j]);
      assert o in obs;
      var m :| 0 <= m < |obs| && obs[m] == o;
    }
    if r.width != 0 {
      var m :| 0 <= m < |obs| && obs[m].geometric && r.width == obs[m].width;
      assert obs[m] in obs;
      var i, j, k :| QualifiesAt(fs, i, j, k) && obs[m] == ModeOf(fs[i].description, fs[i].sizes[j]);
    }
    if r.height != 0 {
      var m :| 0 <= m < |obs| && obs[m].geometric && r.height == obs[m].height;
      assert obs[m] in obs;
      var i, j, k :| QualifiesAt(fs, i, j, k) && obs[m] == ModeOf(fs[i].description, fs[i].sizes[j]);
    }
  }

  /** Format `i` is the last one with a qualifying triple. */
  ghost predicate LastQualifyingFormat(fs: seq<FormatDesc>, i: int)
  {
    0 <= i < |fs| && HasQualifying(fs[i]) && forall i' :: i < i' < |fs| ==> !HasQualifying(fs[i'])
  }

  /** A format contributes exactly when it has a qualifying pair, and all
      it contributes carries its own classification. */
  lemma SizeModesOfFormat(f: FormatDesc)
    ensures SizeModes(f.description, f.sizes) != [] <==> HasQualifying(f)
    ensures forall o :: o in SizeModes(f.description, f.sizes) ==> o.format == ClassifyDescription(f.description)
  {
    SizeModesMembers(f.description, f.sizes);
    var sm := SizeModes(f.description, f.sizes);
    if sm != [] {
      assert sm[0] in sm;
    }
    if HasQualifying(f) {
      var j, k :| SizeQualifiesAt(f.sizes, j, k);
      assert ModeOf(f.description, f.sizes[j]) in sm;
    }
  }

  lemma {:induction false} FormatModesLast(fs: seq<FormatDesc>, i: int)
    requires LastQualifyingFormat(fs, i)
    ensures FormatModes(fs) != [] &&
            FormatModes(fs)[|FormatModes(fs)| - 1].format == ClassifyDescription(fs[i].description)
    decreases |fs|
  {
    var n := |fs| - 1;
    SizeModesOfFormat(fs[n]);
    if i < n {
      var p := fs[..n];
      assert LastQualifyingFormat(p, i);
      FormatModesLast(p, i);
    } else {
      var sm := SizeModes(fs[n].description, fs[n].sizes);
      assert sm[|sm| - 1] in sm;
    }
  }

  lemma {:induction false} FormatModesNone(fs: seq<FormatDesc>)
    requires forall i :: 0 <= i < |fs| ==> !HasQualifying(fs[i])
    ensures FormatModes(fs) == []
    decreases |fs|
  {
    if fs != [] {
      SizeModesOfFormat(fs[|fs| - 1]);
      FormatModesNone(fs[..|fs| - 1]);
    }
  }

  /** The format of the scan: the classification of the last format with a
      qualifying triple (so of the last qualifying triple), or
      `defaultFormat` when no triple qualifies. */
  lemma ScanFormat(fs: seq<FormatDesc>, defaultFormat: PixelFormat)
    ensures (forall i :: 0 <= i < |fs| ==> !HasQualifying(fs[i])) ==>
              Fold(Summary(0, 0, defaultFormat), FormatModes(fs)).format == defaultFormat
    ensures forall i :: LastQualifyingFormat(fs, i) ==>
              Fold(Summary(0, 0, defaultFormat), FormatModes(fs)).format == ClassifyDescription(fs[i].description)
  {
    if forall i :: 0 <= i < |fs| ==> !HasQualifying(fs[i]) {
      FormatModesNone(fs);
    }
    forall i | LastQualifyingFormat(fs, i)
      ensures Fold(Summary(0, 0, defaultFormat), FormatModes(fs)).format == ClassifyDescription(fs[i].description)
    {
      FormatModesLast(fs, i);
      FoldFormat(Summary(0, 0, defaultFormat), FormatModes(fs));
    }
  }

  /** Every kept device is a capture device under a "video" path, and it has
      a qualifying triple whose width is the reported width and one whose
      height is the reported height, both positive. */
  lemma DeviceRecordContents(d: Device, defaultFormat: PixelFormat, info: Info)
    requires DeviceRecord(d, defaultFormat) == Some(info)
    ensures Contains(d.path, "video") && d.opens && d.queryCapOk && d.capabilities & V4L2_CAP_VIDEO_CAPTURE != 0
    ensures info.name == d.card && info.width > 0 && info.height > 0
    ensures exists i, j, k :: QualifiesAt(d.formats, i, j, k) && info.width == AsInt(d.formats[i].sizes[j].width)
    ensures exists i, j, k :: QualifiesAt(d.formats, i, j, k) && info.height == AsInt(d.formats[i].sizes[j].height)
    ensures forall i, j, k :: QualifiesAt(d.formats, i, j, k) ==>
              info.width >= AsInt(d.formats[i].sizes[j].width) && info.height >= AsInt(d.formats[i].sizes[j].height)
    ensures forall i :: LastQualifyingFormat(d.formats, i) ==> info.format == ClassifyDescription(d.formats[i].description)
  {
    ScanGeometry(d.formats, defaultFormat);
    ScanFormat(d.formats, defaultFormat);
  }

  /** A `/dev` entry is kept exactly when it passes the path, open and
      capability checks and some qualifying triple has a positive (cast)
      width and some qualifying triple has a positive (cast) height. */
  lemma DeviceKept(d: Device, defaultFormat: PixelFormat)
    ensures DeviceRecord(d, defaultFormat).Some? <==>
              Contains(d.path, "video") && d.opens && d.queryCapOk &&
              d.capabilities & V4L2_CAP_VIDEO_CAPTURE != 0 &&
              (exists i, j, k :: QualifiesAt(d.formats, i, j, k) && AsInt(d.formats[i].sizes[j].width) > 0) &&
              (exists i, j, k :: QualifiesAt(d.formats, i, j, k) && AsInt(d.formats[i].sizes[j].height) > 0)
  {
    ScanGeometry(d.formats, defaultFormat);
  }

  /** A capture device with no qualifying triple is never kept. */
  lemma NoQualifyingDropped(d: Device, defaultFormat: PixelFormat)
    requires forall i :: 0 <= i < |d.formats| ==> !HasQualifying(d.formats[i])
    ensures DeviceRecord(d, defaultFormat) == None
  {
    FormatModesNone(d.formats);
  }

  /** `get_all_webcams` returns exactly the records of the kept devices,
      never more records than `/dev` entries. */
  lemma WebcamsMembers(ds: seq<Device>, defaultFormat: PixelFormat)
    ensures |Webcams(ds, defaultFormat)| <= |ds|
    ensures forall info :: info in Webcams(ds, defaultFormat) <==>
              exists n :: 0 <= n < |ds| && DeviceRecord(ds[n], defaultFormat) == Some(info)
  {
    var rs := Records(ds, defaultFormat);
    PresentMembers(rs);
    forall info
      ensures Some(info) in rs <==> exists n :: 0 <= n < |ds| && DeviceRecord(ds[n], defaultFormat) == Some(info)
    {
      if Some(info) in rs {
        var n :| 0 <= n < |rs| && rs[n] == Some(info);
        assert DeviceRecord(ds[n], defaultFormat) == Some(info);
      }
      if exists n :: 0 <= n < |ds| && DeviceRecord(ds[n], defaultFormat) == Some(info) {
        var n :| 0 <= n < |ds| && DeviceRecord(ds[n], defaultFormat) == Some(info);
        assert rs[n] == Some(info);
      }
    }
  }

  /** One "YUYV" format with a discrete 1920x1080 size and a discrete 30/1
      interval (30 fps) gives the record 1920x1080 `yuyv`. */
  lemma YuyvAt30Kept(card: string, defaultFormat: PixelFormat)
    ensures var size := FrameSize(Discrete, 1920, 1080, [Interval(Discrete, 1, 30)]);
            DeviceRecord(Device("/dev/video0", true, true, 1, card, [FormatDesc("YUYV 4:2:2", [size])]), defaultFormat) ==
            Some(Info(card, 1920, 1080, Yuyv))
  {
    var size := FrameSize(Discrete, 1920, 1080, [Interval(Discrete, 1, 30)]);
    var fast := FormatDesc("YUYV 4:2:2", [size]);
    var mode := ModeOf(fast.description, size);
    assert Contains("/dev/video0", "video") by {
      assert OccursAt("/dev/video0", "video", 5);
    }
    assert ClassifyDescription(fast.description) == Yuyv by {
      assert fast.description[..|fast.description|] == fast.description;
      assert OccursAt(fast.description, "YUYV", 0);
    }
    assert IntervalModes(fast.description, size, size.intervals) == [mode] by {
      assert size.intervals[..0] == [];
    }
    assert SizeModes(fast.description, [size]) == [mode] by {
      assert [size][..0] == [];
    }
    assert FormatModes([fast]) == [mode] by {
      assert [fast][..0] == [];
    }
    FoldSnoc(Summary(0, 0, defaultFormat), [], mode);
    assert [] + [mode] == [mode];
  }

  /** The same device with only a 15/1 interval (15 fps) is dropped. */
  lemma YuyvAt15Dropped(card: string, defaultFormat: PixelFormat)
    ensures var size := FrameSize(Discrete, 1920, 1080, [Interval(Discrete, 1, 15)]);
            DeviceRecord(Device("/dev/video0", true, true, 1, card, [FormatDesc("YUYV 4:2:2", [size])]), defaultFormat) ==
            None
  {
    var size := FrameSize(Discrete, 1920, 1080, [Interval(Discrete, 1, 15)]);
    var slow := FormatDesc("YUYV 4:2:2", [size]);
    assert IntervalModes(slow.description, size, size.intervals) == [] by {
      assert size.intervals[..0] == [];
    }
    assert SizeModes(slow.description, [size]) == [] by {
      assert [size][..0] == [];
    }
    assert FormatModes([slow]) == [] by {
      assert [slow][..0] == [];
    }
  }
}
