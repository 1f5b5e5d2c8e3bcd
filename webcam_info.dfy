/** The values every platform path shares: the pixel format enumeration,
    its text form, and the record returned for each device. */
module WebcamInfo {

  /** The three named enumerators of `webcam_info::pixel_format`, and
      `Other` for any further value the enumeration's underlying integer
      may hold (the header that declares the enumeration is not part of
      this model; the switch in `to_string` sends all of them to its
      default branch). */
  datatype PixelFormat = Yuyv | Mjpeg | Unknown | Other(code: int)

  /** `webcam_info::to_string`: total, and each of its three answers
      identifies exactly which formats produce it. */
  function ToString(f: PixelFormat): (s: string)
    ensures s == "yuyv" <==> f == Yuyv
    ensures s == "mjpeg" <==> f == Mjpeg
    ensures s == "unknown" <==> f != Yuyv && f != Mjpeg
  {
    match f
    case Yuyv => "yuyv"
    case Mjpeg => "mjpeg"
    case _ => "unknown"
  }

  /** `webcam_info::info`: the name, the widest width, the tallest height
      and the pixel format reported for one device. */
  datatype Info = Info(name: string, width: int, height: int, format: PixelFormat)
}
