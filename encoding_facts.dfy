/** Which fixed words the re-encode line carries, and where. */
module EncodingFacts {
  import opened Wrappers
  import opened CommandLine
  import opened Arguments

  /** The video is the first input and the separate audio, when given, the second; the output
      path is the last word. */
  lemma EncodingInputs(videoPath: string, audioPath: Option<string>, outputPath: string, encoder: string,
                       presetArg: string, isYouTube: bool, isYify: bool)
    ensures var w := EncodingWords(videoPath, audioPath, outputPath, encoder, presetArg, isYouTube, isYify);
      && |w| > 11
      && w[7] == Fixed(Input) && w[8] == Path(videoPath)
      && (HasAudio(audioPath) ==> w[9] == Fixed(Input) && w[10] == Path(audioPath.value))
      && w[|w| - 1] == Path(outputPath)
  {
  }

  /** No `-i` occurs besides those inputs: none before the video's, none after the last input. */
  lemma EncodingInputsOnly(videoPath: string, audioPath: Option<string>, outputPath: string, encoder: string,
                           presetArg: string, isYouTube: bool, isYify: bool)
    ensures var w := EncodingWords(videoPath, audioPath, outputPath, encoder, presetArg, isYouTube, isYify);
      var n := if HasAudio(audioPath) then 11 else 9;
      |w| > n && Fixed(Input) !in w[..7] && Fixed(Input) !in w[n..]
  {
    var hasAudio := HasAudio(audioPath);
    var front := EncodingPrefix(videoPath) + AudioInput(audioPath);
    var tail := ModeWords(encoder, presetArg, hasAudio, isYouTube, isYify) + MapWords(hasAudio) + [Path(outputPath)];
    var w := EncodingWords(videoPath, audioPath, outputPath, encoder, presetArg, isYouTube, isYify);
    assert w == front + tail;
    assert w[|front|..] == tail;
    assert w[..7] == EncodingPrefix(videoPath)[..7];
    ModeMarks(encoder, presetArg, hasAudio, isYouTube, isYify);
    MapMarks(hasAudio);
  }

  /** The video encoder follows `-c:v`, the x264 preset (`slow` for both named presets, the chosen
      one otherwise) follows `-preset`, and the audio codec follows `-c:a`: AAC unless a custom
      encode without separate audio copies the input's stream. */
  lemma EncodingSettings(videoPath: string, audioPath: Option<string>, outputPath: string, encoder: string,
                         presetArg: string, isYouTube: bool, isYify: bool)
    ensures var w := EncodingWords(videoPath, audioPath, outputPath, encoder, presetArg, isYouTube, isYify);
      var i := if HasAudio(audioPath) then 11 else 9;
      var j := if isYouTube || isYify then i + 6 else i + 4;
      && |w| > j + 1
      && w[i] == Fixed(VideoCodec) && w[i + 1] == Named(encoder)
      && w[i + 2] == Fixed(Preset) && w[i + 3] == (if isYouTube || isYify then Fixed(SlowPreset) else Named(presetArg))
      && w[j] == Fixed(AudioCodec) && w[j + 1] == Fixed(if isYouTube || isYify || HasAudio(audioPath) then Aac else Copy)
  {
  }

  /** The line opens with the global options `-y -hide_banner -nostats -v verbose -progress pipe:1`. */
  lemma EncodingGlobalOptions(videoPath: string, audioPath: Option<string>, outputPath: string, encoder: string,
                              presetArg: string, isYouTube: bool, isYify: bool)
    ensures var w := EncodingWords(videoPath, audioPath, outputPath, encoder, presetArg, isYouTube, isYify);
      |w| > 7 && w[..7] == [Fixed(Overwrite), Fixed(HideBanner), Fixed(NoStats), Fixed(LogLevel), Fixed(Verbose),
                            Fixed(Progress), Fixed(PipeOut)]
  {
  }

  /** The two named presets put `-crf` right before their quality, 18 for YouTube and 22 for the
      small-file preset, and YouTube puts `-movflags` right before `+faststart`. */
  lemma EncodingQuality(videoPath: string, audioPath: Option<string>, outputPath: string, encoder: string,
                        presetArg: string, isYouTube: bool, isYify: bool)
    ensures var w := EncodingWords(videoPath, audioPath, outputPath, encoder, presetArg, isYouTube, isYify);
      var i := if HasAudio(audioPath) then 11 else 9;
      && (isYouTube || isYify ==> |w| > i + 5 && w[i + 4] == Fixed(Crf) && w[i + 5] == Fixed(if isYouTube then Crf18 else Crf22))
      && (isYouTube ==> |w| > i + 11 && w[i + 10] == Fixed(MovFlags) && w[i + 11] == Fixed(FastStart))
  {
  }

  /** Whenever the audio is encoded to AAC, `-b:a` follows the codec: 128k for the small-file
      preset, 192k for YouTube and for a custom encode with separate audio. */
  lemma EncodingBitrate(videoPath: string, audioPath: Option<string>, outputPath: string, encoder: string,
                        presetArg: string, isYouTube: bool, isYify: bool)
    requires isYouTube || isYify || HasAudio(audioPath)
    ensures var w := EncodingWords(videoPath, audioPath, outputPath, encoder, presetArg, isYouTube, isYify);
      var i := if HasAudio(audioPath) then 11 else 9;
      var j := if isYouTube || isYify then i + 6 else i + 4;
      |w| > j + 3 && w[j + 2] == Fixed(AudioBitrate) && w[j + 3] == Fixed(if !isYouTube && isYify then Kbps128 else Kbps192)
  {
  }

  /** Just before the output path the line maps the first input's video, then the second input's
      audio when there is one, else the first input's audio if it has any. */
  lemma EncodingMaps(videoPath: string, audioPath: Option<string>, outputPath: string, encoder: string,
                     presetArg: string, isYouTube: bool, isYify: bool)
    ensures var w := EncodingWords(videoPath, audioPath, outputPath, encoder, presetArg, isYouTube, isYify);
      var n := |w|;
      n > 5 && w[n - 5] == Fixed(Map) && w[n - 4] == Fixed(FirstVideo) && w[n - 3] == Fixed(Map)
      && w[n - 2] == Fixed(if HasAudio(audioPath) then SecondAudio else FirstAudioIfAny)
  {
  }

  /** Which mode words appear anywhere in the line: quality 18 and the moved index only for
      YouTube (which wins over the small-file preset), quality 22 only for the small-file preset,
      a copied audio stream only for a custom encode without separate audio, and the second
      input's audio mapped exactly when there is one (the first input's otherwise). */
  lemma EncodingModes(videoPath: string, audioPath: Option<string>, outputPath: string, encoder: string,
                      presetArg: string, isYouTube: bool, isYify: bool)
    ensures var w := EncodingWords(videoPath, audioPath, outputPath, encoder, presetArg, isYouTube, isYify);
      && (Fixed(Crf18) in w <==> isYouTube)
      && (Fixed(FastStart) in w <==> isYouTube)
      && (Fixed(Crf22) in w <==> !isYouTube && isYify)
      && (Fixed(Copy) in w <==> !isYouTube && !isYify && !HasAudio(audioPath))
      && (Fixed(SecondAudio) in w <==> HasAudio(audioPath))
      && (Fixed(FirstAudioIfAny) in w <==> !HasAudio(audioPath))
  {
    var hasAudio := HasAudio(audioPath);
    var prefix := EncodingPrefix(videoPath);
    var audio := AudioInput(audioPath);
    var mode := ModeWords(encoder, presetArg, hasAudio, isYouTube, isYify);
    var maps := MapWords(hasAudio);
    var last := [Path(outputPath)];
    PrefixMarks(videoPath);
    ModeMarks(encoder, presetArg, hasAudio, isYouTube, isYify);
    MapMarks(hasAudio);
    InParts(Fixed(Crf18), prefix, audio, mode, maps, last);
    InParts(Fixed(FastStart), prefix, audio, mode, maps, last);
    InParts(Fixed(Crf22), prefix, audio, mode, maps, last);
    InParts(Fixed(Copy), prefix, audio, mode, maps, last);
    InParts(Fixed(SecondAudio), prefix, audio, mode, maps, last);
    InParts(Fixed(FirstAudioIfAny), prefix, audio, mode, maps, last);
  }

  /** A word is in the line exactly when it is in one of the line's parts. */
  lemma InParts(x: Word, a: seq<Word>, b: seq<Word>, c: seq<Word>, d: seq<Word>, e: seq<Word>)
    ensures x in a + b + c + d + e <==> x in a || x in b || x in c || x in d || x in e
  {
  }

  lemma PrefixMarks(videoPath: string)
    ensures var w := EncodingPrefix(videoPath);
      && Fixed(Crf18) !in w && Fixed(FastStart) !in w && Fixed(Crf22) !in w
      && Fixed(Copy) !in w && Fixed(SecondAudio) !in w && Fixed(FirstAudioIfAny) !in w
  {
  }

  lemma ModeMarks(encoder: string, presetArg: string, hasAudio: bool, isYouTube: bool, isYify: bool)
    ensures var w := ModeWords(encoder, presetArg, hasAudio, isYouTube, isYify);
      && (Fixed(Crf18) in w <==> isYouTube)
      && (Fixed(FastStart) in w <==> isYouTube)
      && (Fixed(Crf22) in w <==> !isYouTube && isYify)
      && (Fixed(Copy) in w <==> !isYouTube && !isYify && !hasAudio)
      && Fixed(SecondAudio) !in w && Fixed(FirstAudioIfAny) !in w && Fixed(Input) !in w
  {
    if isYouTube {
      YouTubeMarks(encoder);
    } else if isYify {
      YifyMarks(encoder);
    } else {
      CustomMarks(encoder, presetArg, hasAudio);
    }
  }

  lemma YouTubeMarks(encoder: string)
    ensures var w := YouTubeWords(encoder);
      && Fixed(Crf18) in w && Fixed(FastStart) in w && Fixed(Crf22) !in w
      && Fixed(Copy) !in w && Fixed(SecondAudio) !in w && Fixed(FirstAudioIfAny) !in w && Fixed(Input) !in w
  {
  }

  lemma YifyMarks(encoder: string)
    ensures var w := YifyWords(encoder);
      && Fixed(Crf18) !in w && Fixed(FastStart) !in w && Fixed(Crf22) in w
      && Fixed(Copy) !in w && Fixed(SecondAudio) !in w && Fixed(FirstAudioIfAny) !in w && Fixed(Input) !in w
  {
  }

  lemma CustomMarks(encoder: string, presetArg: string, hasAudio: bool)
    ensures var w := CustomWords(encoder, presetArg, hasAudio);
      && Fixed(Crf18) !in w && Fixed(FastStart) !in w && Fixed(Crf22) !in w
      && (Fixed(Copy) in w <==> !hasAudio) && Fixed(SecondAudio) !in w && Fixed(FirstAudioIfAny) !in w && Fixed(Input) !in w
  {
  }

  lemma MapMarks(hasAudio: bool)
    ensures var w := MapWords(hasAudio);
      && Fixed(Crf18) !in w && Fixed(FastStart) !in w && Fixed(Crf22) !in w && Fixed(Copy) !in w
      && (Fixed(SecondAudio) in w <==> hasAudio) && (Fixed(FirstAudioIfAny) in w <==> !hasAudio) && Fixed(Input) !in w
  {
  }

}
