/** Encoder selection: resolving the "Auto" choice and finding the best hardware
    encoder, both as priority walks over the probed encoder list. */
module Encoders {
  import opened Wrappers
  import opened Text
  import opened Search

  datatype VideoEncoderOption =
    | Auto | Libx264 | Libx265 | H264Nvenc | HevcNvenc | H264Amf | HevcAmf | H264Qsv | HevcQsv

  /** The option's enum name, as `ToString()` writes it. */
  function OptionName(o: VideoEncoderOption): string {
    match o
    case Auto => "Auto"
    case Libx264 => "libx264"
    case Libx265 => "libx265"
    case H264Nvenc => "h264_nvenc"
    case HevcNvenc => "hevc_nvenc"
    case H264Amf => "h264_amf"
    case HevcAmf => "hevc_amf"
    case H264Qsv => "h264_qsv"
    case HevcQsv => "hevc_qsv"
  }

  const H264Priority: seq<string> := ["h264_qsv", "h264_nvenc", "h264_amf", "h264_vaapi", "h264_v4l2m2m"]
  const HevcPriority: seq<string> := ["hevc_qsv", "hevc_nvenc", "hevc_amf", "hevc_vaapi", "hevc_v4l2m2m"]
  const SoftwareEncoders: set<string> := {"libx264", "libx265"}

  /** Every encoder name the selector can hand to the argument builder. */
  const SelectableNames: set<string> :=
    {"libx264", "libx265", "h264_nvenc", "hevc_nvenc", "h264_amf", "hevc_amf", "h264_qsv", "hevc_qsv",
     "h264_vaapi", "h264_v4l2m2m", "hevc_vaapi", "hevc_v4l2m2m"}

  /** Membership in the probed list (`AvailableEncoders.Contains`). */
  function Available(available: seq<string>): string -> bool {
    e => e in available
  }

  ghost predicate SomeAvailable(priority: seq<string>, available: seq<string>) {
    exists k :: 0 <= k < |priority| && priority[k] in available
  }

  /** The encoder that "Auto" stands for: the H.264 hardware list, then libx264, then the
      HEVC hardware list, then libx265, and libx264 when nothing at all was found. */
  function DetermineAutoEncoder(available: seq<string>): (r: string)
    ensures r in available || r == "libx264"
    ensures r in SelectableNames
    ensures SomeAvailable(H264Priority, available) ==>
              IsFirstPresent(H264Priority, Available(available), r)
    ensures !SomeAvailable(H264Priority, available) && "libx264" in available ==> r == "libx264"
    ensures !SomeAvailable(H264Priority, available) && "libx264" !in available
              && SomeAvailable(HevcPriority, available) ==>
              IsFirstPresent(HevcPriority, Available(available), r)
    ensures !SomeAvailable(H264Priority, available) && "libx264" !in available
              && !SomeAvailable(HevcPriority, available) ==>
              r == if "libx265" in available then "libx265" else "libx264"
  {
    match FirstPresent(H264Priority, Available(available))
    case Some(e) => e
    case None =>
      if "libx264" in available then "libx264"
      else
        match FirstPresent(HevcPriority, Available(available))
        case Some(e) => e
        case None => if "libx265" in available then "libx265" else "libx264"
  }

  /** `Auto` is resolved against the probed list; any other option passes through by name. */
  function ResolveEncoderChoice(o: VideoEncoderOption, available: seq<string>): (r: string)
    ensures r in SelectableNames
    ensures o == Auto ==> r in available || r == "libx264"
    ensures o != Auto ==> r == OptionName(o)
  {
    if o == Auto then DetermineAutoEncoder(available) else OptionName(o)
  }

  /** Ordinal, case-insensitive equality of `pat` with `s` at index `i`. */
  predicate MatchesIgnoreCaseAt(s: string, i: int, pat: string) {
    0 <= i && i + |pat| <= |s| && forall k :: 0 <= k < |pat| ==> LowerChar(s[i + k]) == LowerChar(pat[k])
  }

  /** `s.IndexOf(pat, StringComparison.OrdinalIgnoreCase) >= 0`, folding ASCII letters only. */
  function ContainsIgnoreCase(s: string, pat: string): (r: bool)
    ensures r <==> exists i :: MatchesIgnoreCaseAt(s, i, pat)
  {
    if |s| < |pat| then false
    else if MatchesIgnoreCaseAt(s, 0, pat) then true
    else
      var r := ContainsIgnoreCase(s[1..], pat);
      assert forall i :: MatchesIgnoreCaseAt(s[1..], i, pat) <==> MatchesIgnoreCaseAt(s, i + 1, pat);
      assert forall i :: MatchesIgnoreCaseAt(s, i, pat) ==> i == 0 || MatchesIgnoreCaseAt(s[1..], i - 1, pat);
      r
  }

  /** Whether a requested codec name asks for the H.264 family. */
  predicate RequestsH264(desiredCodec: string) {
    ContainsIgnoreCase(desiredCodec, "x264") || ContainsIgnoreCase(desiredCodec, "h264")
  }

  /** The first available hardware encoder of the requested family, or none. */
  function DetermineBestHardwareEncoder(desiredCodec: string, available: seq<string>): (r: Option<string>)
    ensures r.Some? ==> r.value in available
    ensures RequestsH264(desiredCodec) ==>
              (r.None? <==> !SomeAvailable(H264Priority, available))
              && (r.Some? ==> IsFirstPresent(H264Priority, Available(available), r.value))
    ensures !RequestsH264(desiredCodec) ==>
              (r.None? <==> !SomeAvailable(HevcPriority, available))
              && (r.Some? ==> IsFirstPresent(HevcPriority, Available(available), r.value))
  {
    var priority := if RequestsH264(desiredCodec) then H264Priority else HevcPriority;
    FirstPresent(priority, Available(available))
  }

  /** The hardware selection never yields a software encoder. */
  lemma BestHardwareIsHardware(desiredCodec: string, available: seq<string>)
    ensures var r := DetermineBestHardwareEncoder(desiredCodec, available);
      r.Some? ==> r.value !in SoftwareEncoders
  {
    var r := DetermineBestHardwareEncoder(desiredCodec, available);
    if r.Some? {
      var priority := if RequestsH264(desiredCodec) then H264Priority else HevcPriority;
      var k :| 0 <= k < |priority| && priority[k] == r.value && NoneBefore(priority, Available(available), k);
      HardwareNameIsHardware(r.value);
    }
  }

  lemma HardwareNameIsHardware(x: string)
    requires x in H264Priority || x in HevcPriority
    ensures x !in SoftwareEncoders
  {
  }

  /** A name that is first present in a priority list is determined by the list. */
  lemma FirstPresentUnique(priority: seq<string>, available: seq<string>, x: string, y: string)
    requires IsFirstPresent(priority, Available(available), x)
    requires IsFirstPresent(priority, Available(available), y)
    ensures x == y
  {
    var i :| 0 <= i < |priority| && priority[i] == x && x in available
             && NoneBefore(priority, Available(available), i);
    var j :| 0 <= j < |priority| && priority[j] == y && y in available
             && NoneBefore(priority, Available(available), j);
    if i < j {
      assert Available(available)(priority[i]);
    } else if j < i {
      assert Available(available)(priority[j]);
    }
  }

  /** Auto never picks an HEVC encoder while libx264 is available. */
  lemma AutoPrefersH264(available: seq<string>)
    requires "libx264" in available
    ensures DetermineAutoEncoder(available) in H264Priority || DetermineAutoEncoder(available) == "libx264"
  {
  }

  /** The hardware hints agree with Auto: the best H.264 hardware encoder is what Auto picks,
      and when there is none and no libx264, Auto picks the best HEVC hardware encoder. */
  lemma AutoAgreesWithBestHardware(available: seq<string>)
    ensures DetermineBestHardwareEncoder("h264", available).Some? ==>
              DetermineAutoEncoder(available) == DetermineBestHardwareEncoder("h264", available).value
    ensures DetermineBestHardwareEncoder("h264", available).None? && "libx264" !in available
              && DetermineBestHardwareEncoder("hevc", available).Some? ==>
              DetermineAutoEncoder(available) == DetermineBestHardwareEncoder("hevc", available).value
  {
    assert MatchesIgnoreCaseAt("h264", 0, "h264");
    assert RequestsH264("h264");
    assert LowerChar("hevc"[0]) != LowerChar("x264"[0]) && LowerChar("hevc"[1]) != LowerChar("h264"[1]);
    assert !RequestsH264("hevc");
    var auto := DetermineAutoEncoder(available);
    var h := DetermineBestHardwareEncoder("h264", available);
    if h.Some? {
      FirstPresentUnique(H264Priority, available, auto, h.value);
    }
    var v := DetermineBestHardwareEncoder("hevc", available);
    if h.None? && "libx264" !in available && v.Some? {
      FirstPresentUnique(HevcPriority, available, auto, v.value);
    }
  }

  /** Two example selections. */
  lemma AutoExamples()
    ensures DetermineAutoEncoder(["h264_qsv", "h264_nvenc", "libx264"]) == "h264_qsv"
    ensures DetermineAutoEncoder(["libx264"]) == "libx264"
  {
  }
}
