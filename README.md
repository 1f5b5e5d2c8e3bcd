# webcam_info: a verified model of device selection

`webcam_info` lists the webcams attached to a machine. For each device it reports a name, a width, a height and a pixel format (`yuyv`, `mjpeg` or `unknown`). There is one body per operating system. Each body asks the platform's media framework for the capture devices and their modes. It then picks the widest width and the tallest height among the modes it accepts, keeps the format of the last accepted mode, and drops devices that fail a check.

This project models that selection logic in Dafny, for the Windows (DirectShow) body and the Linux (V4L2) body. Each platform call is replaced by what it returns: a status code, a flag or a sequence of records. The loops of the source are methods with loop invariants. Each method is proved equal to a specification function, and lemmas state what those functions mean:

- both maxima really are maxima over the accepted modes;
- the format comes from the last accepted mode;
- a device is included exactly when every required call succeeds;
- on Linux, every kept device has a qualifying mode.

Modules:

- `Options`: `Option`, plus `Present`, the list of included records built from one include-or-skip decision per device.
- `WebcamInfo`: `PixelFormat`, `ToString` (the source's `to_string`) and the `Info` record.
- `Summaries`: the running maxima and last-format update both scans share. `Fold` applies it to a sequence of examined modes.
- `DirectShow`: the Windows body (`GetVideoParameters`, `get_devices_info`, `EnumerateDevices`, `get_all_webcams`).
- `Video4Linux`: the Linux `get_all_webcams`.

Modelling decisions:

- An HRESULT is a signed 32-bit integer, and `SUCCEEDED` means non-negative. So `S_FALSE` (1) counts as success; that is why `EnumerateDevices` remaps it. `VFW_E_NOT_FOUND` is 0x80040216 read as a signed value.
- The value-initialised `pixel_format{}` is the parameter `defaultFormat`. It depends on a header that is not part of this model.
- `PixelFormat.Other` stands for any value outside the three named enumerators; `to_string` sends those to its default branch.
- Linux frame widths and heights are `__u32` values. `static_cast<int>` turns them into signed values; `AsInt` models that wrap-around explicitly.
- The fps test `denominator / numerator > 29` is an exact rational comparison with a positive numerator.
- The Linux description is matched on its first 32 bytes, one `char` per byte. A shorter string stands for a NUL-padded field.
- Some loop bodies are separate methods so that each proof stays small:
  - Windows: `ReadCaps` is the caps `for` loop of `GetVideoParameters`, and `ReadMoniker` is one pass of the moniker loop.
  - Linux: `ScanIntervals` is the innermost ioctl loop, and `ReadDevice` is one pass of the directory loop.

Points where the code's behaviour is easy to misread (the model follows the code):

- On Windows the running format is overwritten only by entries whose `GetStreamCaps` succeeded, not by every entry examined. The overwrite happens whether or not the entry's formattype is `FORMAT_VideoInfo`.
- An empty device category is not treated as a plain empty result: `S_FALSE` is turned into the error `VFW_E_NOT_FOUND`. The result is the same, an empty list.
- The format that starts each scan is `pixel_format{}`, not necessarily `unknown`.
- On Windows a device is also dropped when the last `GetStreamCaps` call fails, because `GetVideoParameters` returns the status of the last call it made.

## Model

| member | source | states |
|---|---|---|
| `WebcamInfo.ToString` | src/webcam_info.cpp:8-21 | total; the result is "yuyv" exactly for `yuyv`, "mjpeg" exactly for `mjpeg`, and "unknown" exactly for every other value |
| `Summaries.Max` | src/webcam_info.cpp:266-267 | `std::max`: the result bounds both arguments and is one of them |
| `Summaries.FoldGeometry` | src/webcam_info.cpp:63-75 | after a scan, width and height bound the starting values and every geometric mode's dimensions, and each equals its starting value or one of those dimensions (a maximum) |
| `Summaries.FoldFormat` | src/webcam_info.cpp:76-81 | after a scan, the format is that of the last mode examined, or the starting format if no mode was examined |
| `Summaries.FoldMonotone` | src/webcam_info.cpp:63-75 | neither width nor height ever decreases during a scan: the values after any prefix are at most the final values |
| `Summaries.FoldAppend` | src/webcam_info.cpp:246-285 | scanning `a` and then `b` equals scanning `a + b` (how the nested Linux loops compose) |
| `DirectShow.Classify` | src/webcam_info.cpp:76-81 | YUY2 gives `yuyv`, MJPG gives `mjpeg`, and every other subtype gives `unknown`, each in both directions |
| `DirectShow.FirstOutput` | src/webcam_info.cpp:45-90 | the index of the first output-direction pin, with no output pin before it; `None` exactly when no pin is an output pin |
| `DirectShow.ReadCaps` | src/webcam_info.cpp:63-83 | the returned status is that of the last `GetStreamCaps` call (or the incoming status when there are no entries); the reference parameters end as the fold over the successful entries |
| `DirectShow.GetVideoParameters` | src/webcam_info.cpp:34-96 | status and parameters equal `VideoParameters`: the `EnumPins` failure, or the first output pin's `QueryInterface`, count and caps results; pins without an output pin leave the parameters unchanged |
| `DirectShow.LaterPinsIgnored` | src/webcam_info.cpp:45-90 | replacing every pin after the first output pin does not change the outcome (the `break`) |
| `DirectShow.ObservationsMembers` | src/webcam_info.cpp:66-82 | the modes the caps loop examines are exactly the entries whose `GetStreamCaps` succeeded |
| `DirectShow.CapsGeometry` | src/webcam_info.cpp:63-75 | after the caps loop, width and height are the maxima of the starting values and the entries that both succeeded and have formattype `FORMAT_VideoInfo` |
| `DirectShow.CapsFormat` | src/webcam_info.cpp:66-81 | after the caps loop, the format classifies the last successful entry whatever its formattype, and is unchanged when no entry succeeded |
| `DirectShow.ReadMoniker` | src/webcam_info.cpp:103-149 | one pass of the moniker loop yields exactly the moniker's `DeviceRecord` |
| `DirectShow.GetDevicesInfo` | src/webcam_info.cpp:98-152 | the list built equals `DevicesInfo`: the included monikers' records, in order |
| `DirectShow.DeviceIncluded` | src/webcam_info.cpp:110-137 | a record is appended exactly when these all succeed: `BindToStorage`, Description or else FriendlyName, `BindToObject`, `EnumPins`, and on the first output pin `QueryInterface`, `GetNumberOfCapabilities` and the last `GetStreamCaps` |
| `DirectShow.DeviceRecordContents` | src/webcam_info.cpp:105-137 | the name of an included device is the Description, or the FriendlyName when the Description read fails; width and height start at 0, are at least 0, and bound every successful VideoInfo entry; the format is the last successful entry's class, or `defaultFormat` when there is none |
| `DirectShow.DevicesInfoMembers` | src/webcam_info.cpp:98-152 | a record is in the result exactly when some moniker yields it, and there are never more records than monikers |
| `DirectShow.EnumerateDevices` | src/webcam_info.cpp:154-171 | succeeds exactly when `CoCreateInstance` and `CreateClassEnumerator` succeed and the category is not empty (`S_FALSE`); on success the status is the enumerator's |
| `DirectShow.GetAllWebcams` | src/webcam_info.cpp:173-190 | the list is `DevicesInfo` of the monikers when COM initialisation and the enumerator succeed; it is empty when `CoInitializeEx` fails, the device enumerator fails or the category is empty |
| `DirectShow.TwoEntryScenario` | src/webcam_info.cpp:63-83 | entries 640x480 MJPG then 1280x720 of another subtype give the record 1280x720 `unknown` |
| `Video4Linux.AsInt` | src/webcam_info.cpp:266-267 | `static_cast<int>` of a `__u32`: a signed 32-bit value with the same bits, non-negative exactly below 2^31 |
| `Video4Linux.ClassifyReadsFirst32` | src/webcam_info.cpp:268-276 | only the first 32 description bytes decide the format |
| `Video4Linux.ScanIntervals` | src/webcam_info.cpp:259-280 | the interval loop equals the fold over the intervals that are discrete and above 29 fps, of a discrete size |
| `Video4Linux.ScanFormats` | src/webcam_info.cpp:239-285 | the format, size and interval loops equal the fold, from 0, 0 and `defaultFormat`, over all qualifying triples in scan order |
| `Video4Linux.FormatModesMembers` | src/webcam_info.cpp:246-285 | the modes the scan examines are exactly those of the qualifying (format, size, interval) triples |
| `Video4Linux.ScanGeometry` | src/webcam_info.cpp:259-267 | after the scan, width and height are at least 0, bound the cast dimensions of every qualifying triple, and are 0 or equal to one of them |
| `Video4Linux.SizeModesOfFormat` | src/webcam_info.cpp:252-276 | a format contributes modes exactly when it has a qualifying (size, interval) pair, and everything it contributes carries its own classification |
| `Video4Linux.FormatModesLast` | src/webcam_info.cpp:246-285 | the last mode examined comes from the last format that has a qualifying triple |
| `Video4Linux.ScanFormat` | src/webcam_info.cpp:268-276 | after the scan, the format is the classification of the last format with a qualifying triple (so of the last qualifying triple), or `defaultFormat` when no triple qualifies |
| `Video4Linux.ReadDevice` | src/webcam_info.cpp:213-288 | one pass of the directory loop yields exactly the entry's `DeviceRecord` |
| `Video4Linux.GetAllWebcams` | src/webcam_info.cpp:205-291 | the list built equals `Webcams`: the kept devices' records, in directory order |
| `Video4Linux.DeviceKept` | src/webcam_info.cpp:213-288 | an entry is kept exactly when its path contains "video", it opens, `VIDIOC_QUERYCAP` succeeds, it has `V4L2_CAP_VIDEO_CAPTURE`, and some qualifying triple has a positive width and some has a positive height |
| `Video4Linux.DeviceRecordContents` | src/webcam_info.cpp:213-288 | a kept device passed every check; its name is the card; its width and height are positive, each attained by a qualifying triple, and bound all of them; its format classifies the last format with a qualifying triple |
| `Video4Linux.NoQualifyingDropped` | src/webcam_info.cpp:259-288 | a device with no qualifying triple is never kept |
| `Video4Linux.WebcamsMembers` | src/webcam_info.cpp:205-291 | a record is in the result exactly when some entry yields it, and there are never more records than entries |
| `Video4Linux.YuyvAt30Kept` | src/webcam_info.cpp:259-288 | a "YUYV" format with a discrete 1920x1080 size at 30/1 fps gives the record 1920x1080 `yuyv` |
| `Video4Linux.YuyvAt15Dropped` | src/webcam_info.cpp:259-288 | the same device at 15/1 fps is dropped |
| `Options.PresentMembers` | src/webcam_info.cpp:137 | the present values are exactly those of the `Some` entries, and there are no more of them than entries |

## Left out

- The macOS body (src/webcam_info.cpp:295-399) is not modelled. Its preprocessor guard is commented out, so it is compiled next to the other bodies and would not build. It also converts a `CFStringRef` with `std::string`, and it only copies registry values (the last child entry wins).
- COM, DirectShow, ioctl, `open`, `std::filesystem::directory_iterator`, IOKit and CoreFoundation calls are not modelled. Each one is replaced by its status code or flag and the data it yields.
- Resource release is not modelled: `Release`, `VariantClear`, the never-closed Linux file descriptors, and the property bag and moniker that leak when both name reads fail.
- The stray `pPropBag->Write(L"FriendlyName", ...)` at src/webcam_info.cpp:145 is not modelled; its status is overwritten and never read.
- Console output (`std::cout`, `printf`) is not modelled.
- `ConvertWCharToString` (the wide-character to UTF-8 conversion) and the `strcpy` of `cap.card` are not modelled. Names are opaque strings.
- `PIN_DIRECTION` when `QueryDirection` fails is not modelled: each pin's direction is an input.
- Video4Linux.FramesAbove29: single-precision rounding of `1.0f * denominator / numerator` is not modelled. A numerator of 0 (infinity or NaN in the source) is treated as not qualifying.
- The enumerator that `pixel_format{}` yields is not fixed. It comes from the header, which is not part of this model, so it is the parameter `defaultFormat`.
