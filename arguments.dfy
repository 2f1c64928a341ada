/** Output-path builders, the audio-codec table and the engine's argument lines for extracting
    audio, remuxing and re-encoding. Each argument line is the list of its words joined by single
    blanks, paths in double quotes, exactly as the source's interpolated strings lay them out. */
module Arguments {
  import opened Wrappers
  import opened Text
  import opened CommandLine
  import opened Paths
  import opened Encoders

  datatype ContainerOption = Mkv | Mp4

  /** The enum member's name, used as the file extension. */
  function ContainerName(c: ContainerOption): string {
    match c
    case Mkv => "mkv"
    case Mp4 => "mp4"
  }

  datatype EncodePreset = Ultrafast | Superfast | Veryfast | Faster | Fast | Medium | Slow | Slower | Veryslow

  /** The enum member's name as `ToString` spells it. */
  function PresetName(p: EncodePreset): string {
    match p
    case Ultrafast => "Ultrafast"
    case Superfast => "Superfast"
    case Veryfast => "Veryfast"
    case Faster => "Faster"
    case Fast => "Fast"
    case Medium => "Medium"
    case Slow => "Slow"
    case Slower => "Slower"
    case Veryslow => "Veryslow"
  }

  /** The `-preset` value of a custom encode: the member's name in lower case, still one word. */
  function PresetArg(p: EncodePreset): (r: string)
    ensures |r| == |PresetName(p)| && WellFormed(Flag(r))
    ensures forall k :: 0 <= k < |r| ==> !('A' <= r[k] <= 'Z')
    ensures forall k :: 0 <= k < |r| ==> r[k] == LowerChar(PresetName(p)[k])
  {
    PresetNameIsWord(p);
    PlainFromAll(PresetName(p), 0);
    PlainFromLower(LowerAscii(PresetName(p)), 0);
    LowerAscii(PresetName(p))
  }

  lemma PresetNameIsWord(p: EncodePreset)
    ensures WellFormed(Flag(PresetName(p)))
  {
    PlainFromLower(PresetName(p), 0);
  }

  lemma PresetArgExample()
    ensures PresetArg(Medium) == "medium"
  {
  }

  /** The extension of an extracted audio file. */
  function AudioExtension(codec: string): (ext: string)
    ensures ext in {".m4a", ".mp3", ".wav", ".flac"}
    ensures codec in {"mp3", "wav", "flac"} ==> ext == "." + codec
    ensures codec == "aac" ==> ext == ".m4a"
    ensures codec !in {"aac", "mp3", "wav", "flac"} ==> ext == ".wav"
  {
    match codec
    case "aac" => ".m4a"
    case "mp3" => ".mp3"
    case "wav" => ".wav"
    case "flac" => ".flac"
    case _ => ".wav"
  }

  /** The engine's encoder for a requested audio codec; anything unknown becomes 16-bit PCM. */
  function ResolveAudioCodec(codec: string): (r: string)
    ensures r in {"aac", "libmp3lame", "pcm_s16le", "flac"}
    ensures codec !in {"aac", "mp3", "wav", "flac"} ==> r == "pcm_s16le"
    ensures codec == "aac" ==> r == "aac"
    ensures codec == "mp3" ==> r == "libmp3lame"
    ensures codec == "wav" ==> r == "pcm_s16le"
    ensures codec == "flac" ==> r == "flac"
  {
    match codec
    case "aac" => "aac"
    case "mp3" => "libmp3lame"
    case "wav" => "pcm_s16le"
    case "flac" => "flac"
    case _ => "pcm_s16le"
  }

  /** Which encoder's stream each audio container holds. */
  function ContainerCodec(ext: string): Option<string> {
    match ext
    case ".m4a" => Some("aac")
    case ".mp3" => Some("libmp3lame")
    case ".wav" => Some("pcm_s16le")
    case ".flac" => Some("flac")
    case _ => None
  }

  /** Whatever codec is asked for, the extracted stream is written into a container made for it. */
  lemma ExtensionFitsCodec(codec: string)
    ensures ContainerCodec(AudioExtension(codec)) == Some(ResolveAudioCodec(codec))
  {
  }

  /** Extracting MP3 from `C:\media\clip.mkv` writes `C:\media\clip.mp3` with the LAME encoder. */
  lemma ExtractMp3Example()
    ensures var input := FilePath(Some("C:\\media"), "clip", ".mkv");
      var output := GetAudioOutputPath(input, "mp3", "C:\\app");
      && output == "C:\\media\\clip.mp3"
      && SplitArgs(BuildExtractAudioArgs(FullPath(input), output, "mp3").0)
         == ["-y", "-hide_banner", "-nostats", "-progress", "pipe:1",
             "-i", "C:\\media\\clip.mkv", "-vn", "-acodec", "libmp3lame", "C:\\media\\clip.mp3"]
  {
    var input := FilePath(Some("C:\\media"), "clip", ".mkv");
    var inPath := FullPath(input);
    var outPath := GetAudioOutputPath(input, "mp3", "C:\\app");
    ClipPaths();
    ClipQuotable();
    ExtractAudioArgv(inPath, outPath, "mp3");
    assert ResolveAudioCodec("mp3") == "libmp3lame";
  }

  lemma ClipPaths()
    ensures FullPath(FilePath(Some("C:\\media"), "clip", ".mkv")) == "C:\\media\\clip.mkv"
    ensures GetAudioOutputPath(FilePath(Some("C:\\media"), "clip", ".mkv"), "mp3", "C:\\app") == "C:\\media\\clip.mp3"
  {
  }

  lemma ClipQuotable()
    ensures Quotable("C:\\media\\clip.mkv") && Quotable("C:\\media\\clip.mp3")
  {
  }

  /** The encoded file: the input's directory (or the application directory when there is
      none), the input's stem with `_encoded`, and the container's extension. */
  function GetOutputPath(input: FilePath, container: ContainerOption, baseDir: string): (r: string)
    ensures var name := input.stem + "_encoded" + "." + ContainerName(container);
      |r| >= |name| && r[|r| - |name|..] == name
    ensures var dir := input.dir.GetOr(baseDir);
      |r| >= |dir| && r[..|dir|] == dir
    ensures |r| <= |input.dir.GetOr(baseDir)| + 1 + |input.stem + "_encoded" + "." + ContainerName(container)|
  {
    Combine(input.dir.GetOr(baseDir), input.stem + "_encoded" + "." + ContainerName(container))
  }

  /** The encoded file never replaces its input: when the input's directory is kept, the names
      differ where the input's extension starts. */
  lemma OutputNeverOverwritesInput(input: FilePath, container: ContainerOption, baseDir: string)
    requires input.dir.Some? && ValidExtension(input.ext)
    ensures GetOutputPath(input, container, baseDir) != FullPath(input)
  {
    var name := input.stem + "_encoded" + "." + ContainerName(container);
    assert name[|input.stem|] == '_';
    assert |input.stem + input.ext| > |input.stem| ==> (input.stem + input.ext)[|input.stem|] == '.';
    CombineDistinct(input.dir.value, name, input.stem + input.ext);
  }

  /** The extracted audio file: the input's directory and stem with the codec's extension. */
  function GetAudioOutputPath(input: FilePath, codec: string, baseDir: string): (r: string)
    ensures var name := input.stem + AudioExtension(codec);
      |r| >= |name| && r[|r| - |name|..] == name
    ensures var dir := input.dir.GetOr(baseDir);
      |r| >= |dir| && r[..|dir|] == dir
    ensures |r| <= |input.dir.GetOr(baseDir)| + 1 + |input.stem + AudioExtension(codec)|
  {
    Combine(input.dir.GetOr(baseDir), input.stem + AudioExtension(codec))
  }

  /** The extracted audio lands on the input itself exactly when the input already has the
      codec's extension (extracting AAC from `song.m4a`, say). */
  lemma AudioOutputOverwritesInputIff(input: FilePath, codec: string, baseDir: string)
    requires input.dir.Some?
    ensures GetAudioOutputPath(input, codec, baseDir) == FullPath(input) <==> input.ext == AudioExtension(codec)
  {
    var name := input.stem + AudioExtension(codec);
    if GetAudioOutputPath(input, codec, baseDir) == FullPath(input) {
      CombineInjective(input.dir.value, name, input.stem + input.ext);
      assert AudioExtension(codec) == name[|input.stem|..];
    }
  }

  /** The fixed words of the argument lines. */
  datatype Opt =
    | Overwrite | HideBanner | NoStats | LogLevel | Verbose | Progress | PipeOut | Input
    | NoVideo | AudioEncoder | Codec | Copy | Map | FirstVideo | SecondAudio | FirstAudioIfAny
    | VideoCodec | Preset | SlowPreset | Crf | Crf18 | Crf22 | AudioCodec | Aac | AudioBitrate
    | Kbps192 | Kbps128 | MovFlags | FastStart

  /** How the engine spells each fixed word. */
  function Spelling(o: Opt): string {
    match o
    case Overwrite => "-y"
    case HideBanner => "-hide_banner"
    case NoStats => "-nostats"
    case LogLevel => "-v"
    case Verbose => "verbose"
    case Progress => "-progress"
    case PipeOut => "pipe:1"
    case Input => "-i"
    case NoVideo => "-vn"
    case AudioEncoder => "-acodec"
    case Codec => "-c"
    case Copy => "copy"
    case Map => "-map"
    case FirstVideo => "0:v:0"
    case SecondAudio => "1:a:0"
    case FirstAudioIfAny => "0:a:0?"
    case VideoCodec => "-c:v"
    case Preset => "-preset"
    case SlowPreset => "slow"
    case Crf => "-crf"
    case Crf18 => "18"
    case Crf22 => "22"
    case AudioCodec => "-c:a"
    case Aac => "aac"
    case AudioBitrate => "-b:a"
    case Kbps192 => "192k"
    case Kbps128 => "128k"
    case MovFlags => "-movflags"
    case FastStart => "+faststart"
  }

  /** Each fixed word is one argument: not empty, without blanks or quotes. */
  lemma SpellingIsPlain(o: Opt)
    ensures WellFormed(Flag(Spelling(o)))
  {
    if o.Overwrite? || o.HideBanner? || o.NoStats? || o.LogLevel? || o.Verbose? || o.Progress? || o.PipeOut? {
      GlobalWordIsPlain(o);
    } else if o.Input? || o.NoVideo? || o.AudioEncoder? || o.Codec? || o.Copy? || o.Map? || o.FirstVideo? {
      StreamWordIsPlain(o);
    } else if o.SecondAudio? || o.FirstAudioIfAny? || o.VideoCodec? || o.Preset? || o.SlowPreset? || o.Crf? || o.Crf18? {
      VideoWordIsPlain(o);
    } else {
      AudioWordIsPlain(o);
    }
  }

  lemma GlobalWordIsPlain(o: Opt)
    requires o.Overwrite? || o.HideBanner? || o.NoStats? || o.LogLevel? || o.Verbose? || o.Progress? || o.PipeOut?
    ensures WellFormed(Flag(Spelling(o)))
  {
    PlainFromLower(Spelling(o), 0);
  }

  lemma StreamWordIsPlain(o: Opt)
    requires o.Input? || o.NoVideo? || o.AudioEncoder? || o.Codec? || o.Copy? || o.Map? || o.FirstVideo?
    ensures WellFormed(Flag(Spelling(o)))
  {
    PlainFromLower(Spelling(o), 0);
  }

  lemma VideoWordIsPlain(o: Opt)
    requires o.SecondAudio? || o.FirstAudioIfAny? || o.VideoCodec? || o.Preset? || o.SlowPreset? || o.Crf? || o.Crf18?
    ensures WellFormed(Flag(Spelling(o)))
  {
    PlainFromLower(Spelling(o), 0);
  }

  lemma AudioWordIsPlain(o: Opt)
    requires o.Crf22? || o.AudioCodec? || o.Aac? || o.AudioBitrate? || o.Kbps192? || o.Kbps128? || o.MovFlags? || o.FastStart?
    ensures WellFormed(Flag(Spelling(o)))
  {
    PlainFromLower(Spelling(o), 0);
  }

  /** A word of an argument line: a fixed word, a computed name (an encoder, a preset) or a path. */
  datatype Word = Fixed(opt: Opt) | Named(name: string) | Path(path: string)

  function ToArg(w: Word): Arg {
    match w
    case Fixed(o) => Flag(Spelling(o))
    case Named(n) => Flag(n)
    case Path(p) => Quoted(p)
  }

  /** The rendered arguments, word by word. */
  function Args(words: seq<Word>): (args: seq<Arg>)
    ensures |args| == |words|
    ensures forall k :: 0 <= k < |words| ==> args[k] == ToArg(words[k])
  {
    seq(|words|, k requires 0 <= k < |words| => ToArg(words[k]))
  }

  /** A path the engine can receive as one argument: it holds no double quote. */
  predicate Quotable(path: string) {
    forall k :: 0 <= k < |path| ==> path[k] != '"'
  }

  /** Every computed name is one argument and every path is quote-free. */
  predicate Plain(words: seq<Word>) {
    forall w :: w in words ==> (w.Named? ==> WellFormed(Flag(w.name))) && (w.Path? ==> Quotable(w.path))
  }

  /** The line joined from such words splits back into the words' values. */
  lemma PlainSplit(words: seq<Word>)
    requires Plain(words)
    ensures SplitArgs(Join(Args(words))) == Values(Args(words))
  {
    var args := Args(words);
    forall a | a in args
      ensures WellFormed(a)
    {
      var k :| 0 <= k < |args| && args[k] == a;
      assert words[k] in words;
      if words[k].Fixed? {
        SpellingIsPlain(words[k].opt);
      }
    }
    SplitJoin(args);
  }

  /** The line an argument list renders to. */
  function Line(words: seq<Word>): string {
    Join(Args(words))
  }

  /** Appending a fragment with a leading blank, as the string builder does, renders the
      concatenated word list. */
  lemma LineAppend(a: seq<Word>, b: seq<Word>)
    requires a != [] && b != []
    ensures Line(a + b) == Line(a) + " " + Line(b)
  {
    assert Args(a + b) == Args(a) + Args(b);
    JoinAppend(Args(a), Args(b));
  }

  function ExtractAudioWords(inputPath: string, outputPath: string, codec: string): seq<Word> {
    [Fixed(Overwrite), Fixed(HideBanner), Fixed(NoStats), Fixed(Progress), Fixed(PipeOut),
     Fixed(Input), Path(inputPath), Fixed(NoVideo), Fixed(AudioEncoder), Named(ResolveAudioCodec(codec)),
     Path(outputPath)]
  }

  /** The argument line for extracting the audio stream and the label of the operation. */
  function BuildExtractAudioArgs(inputPath: string, outputPath: string, codec: string): (r: (string, string))
    ensures r.1 == "Extracting audio"
    ensures Quotable(inputPath) && Quotable(outputPath) ==>
      SplitArgs(r.0) == ["-y", "-hide_banner", "-nostats", "-progress", "pipe:1",
                         "-i", inputPath, "-vn", "-acodec", ResolveAudioCodec(codec), outputPath]
  {
    var words := ExtractAudioWords(inputPath, outputPath, codec);
    if Quotable(inputPath) && Quotable(outputPath) then
      ExtractAudioArgv(inputPath, outputPath, codec);
      (Line(words), "Extracting audio")
    else
      (Line(words), "Extracting audio")
  }

  lemma ExtractAudioArgv(inputPath: string, outputPath: string, codec: string)
    requires Quotable(inputPath) && Quotable(outputPath)
    ensures SplitArgs(Line(ExtractAudioWords(inputPath, outputPath, codec)))
            == ["-y", "-hide_banner", "-nostats", "-progress", "pipe:1",
                "-i", inputPath, "-vn", "-acodec", ResolveAudioCodec(codec), outputPath]
  {
    var w := ExtractAudioWords(inputPath, outputPath, codec);
    AudioEncoderIsWord(codec);
    assert Plain(w);
    PlainSplit(w);
    ExtractAudioValues(inputPath, outputPath, codec);
  }

  lemma AudioEncoderIsWord(codec: string)
    ensures WellFormed(Flag(ResolveAudioCodec(codec)))
  {
    assert forall t :: t in {"aac", "libmp3lame", "pcm_s16le", "flac"} ==> WellFormed(Flag(t));
  }

  lemma ExtractAudioValues(inputPath: string, outputPath: string, codec: string)
    ensures Values(Args(ExtractAudioWords(inputPath, outputPath, codec)))
            == ["-y", "-hide_banner", "-nostats", "-progress", "pipe:1",
                "-i", inputPath, "-vn", "-acodec", ResolveAudioCodec(codec), outputPath]
  {
  }

  function RemuxWords(videoPath: string, audioPath: string, outputPath: string): seq<Word> {
    [Fixed(Overwrite), Fixed(HideBanner), Fixed(NoStats), Fixed(Progress), Fixed(PipeOut),
     Fixed(Input), Path(videoPath), Fixed(Input), Path(audioPath), Fixed(Codec), Fixed(Copy),
     Fixed(Map), Fixed(FirstVideo), Fixed(Map), Fixed(SecondAudio), Path(outputPath)]
  }

  /** The argument line for copying the first file's video and the second file's audio into one. */
  function BuildRemuxArgs(videoPath: string, audioPath: string, outputPath: string): (r: string)
    ensures Quotable(videoPath) && Quotable(audioPath) && Quotable(outputPath) ==>
      SplitArgs(r) == ["-y", "-hide_banner", "-nostats", "-progress", "pipe:1",
                       "-i", videoPath, "-i", audioPath, "-c", "copy",
                       "-map", "0:v:0", "-map", "1:a:0", outputPath]
  {
    var words := RemuxWords(videoPath, audioPath, outputPath);
    if Quotable(videoPath) && Quotable(audioPath) && Quotable(outputPath) then
      RemuxArgv(videoPath, audioPath, outputPath);
      Line(words)
    else
      Line(words)
  }

  lemma RemuxArgv(videoPath: string, audioPath: string, outputPath: string)
    requires Quotable(videoPath) && Quotable(audioPath) && Quotable(outputPath)
    ensures SplitArgs(Line(RemuxWords(videoPath, audioPath, outputPath)))
            == ["-y", "-hide_banner", "-nostats", "-progress", "pipe:1",
                "-i", videoPath, "-i", audioPath, "-c", "copy",
                "-map", "0:v:0", "-map", "1:a:0", outputPath]
  {
    var w := RemuxWords(videoPath, audioPath, outputPath);
    assert Plain(w);
    PlainSplit(w);
    RemuxValues(videoPath, audioPath, outputPath);
  }

  lemma RemuxValues(videoPath: string, audioPath: string, outputPath: string)
    ensures Values(Args(RemuxWords(videoPath, audioPath, outputPath)))
            == ["-y", "-hide_banner", "-nostats", "-progress", "pipe:1",
                "-i", videoPath, "-i", audioPath, "-c", "copy",
                "-map", "0:v:0", "-map", "1:a:0", outputPath]
  {
  }

  /** `string.IsNullOrEmpty` is false: a separate audio input was given. */
  predicate HasAudio(audioPath: Option<string>) {
    audioPath.Some? && audioPath.value != ""
  }

  /** The words of the re-encode line, in the order the source appends them. */
  function EncodingPrefix(videoPath: string): seq<Word> {
    [Fixed(Overwrite), Fixed(HideBanner), Fixed(NoStats), Fixed(LogLevel), Fixed(Verbose),
     Fixed(Progress), Fixed(PipeOut), Fixed(Input), Path(videoPath)]
  }

  function AudioInput(audioPath: Option<string>): seq<Word> {
    if HasAudio(audioPath) then [Fixed(Input), Path(audioPath.value)] else []
  }

  /** The YouTube preset: slow preset, quality 18, AAC 192k and the index moved to the front. */
  function YouTubeWords(encoder: string): seq<Word> {
    [Fixed(VideoCodec), Named(encoder), Fixed(Preset), Fixed(SlowPreset), Fixed(Crf), Fixed(Crf18),
     Fixed(AudioCodec), Fixed(Aac), Fixed(AudioBitrate), Fixed(Kbps192), Fixed(MovFlags), Fixed(FastStart)]
  }

  /** The small-file preset: slow preset, quality 22 and AAC 128k. */
  function YifyWords(encoder: string): seq<Word> {
    [Fixed(VideoCodec), Named(encoder), Fixed(Preset), Fixed(SlowPreset), Fixed(Crf), Fixed(Crf22),
     Fixed(AudioCodec), Fixed(Aac), Fixed(AudioBitrate), Fixed(Kbps128)]
  }

  /** A custom encode: the chosen preset; new audio is encoded to AAC, the input's is copied. */
  function CustomWords(encoder: string, presetArg: string, hasAudio: bool): seq<Word> {
    CustomVideo(encoder, presetArg) + CustomAudio(hasAudio)
  }

  function CustomVideo(encoder: string, presetArg: string): seq<Word> {
    [Fixed(VideoCodec), Named(encoder), Fixed(Preset), Named(presetArg)]
  }

  function CustomAudio(hasAudio: bool): seq<Word> {
    if hasAudio then [Fixed(AudioCodec), Fixed(Aac), Fixed(AudioBitrate), Fixed(Kbps192)]
    else [Fixed(AudioCodec), Fixed(Copy)]
  }

  /** The YouTube choice wins over the small-file one. */
  function ModeWords(encoder: string, presetArg: string, hasAudio: bool, isYouTube: bool, isYify: bool): seq<Word> {
    if isYouTube then YouTubeWords(encoder)
    else if isYify then YifyWords(encoder)
    else CustomWords(encoder, presetArg, hasAudio)
  }

  function MapWords(hasAudio: bool): seq<Word> {
    if hasAudio then [Fixed(Map), Fixed(FirstVideo), Fixed(Map), Fixed(SecondAudio)]
    else [Fixed(Map), Fixed(FirstVideo), Fixed(Map), Fixed(FirstAudioIfAny)]
  }

  /** All words of the re-encode line. */
  function EncodingWords(videoPath: string, audioPath: Option<string>, outputPath: string, encoder: string,
                         presetArg: string, isYouTube: bool, isYify: bool): seq<Word>
  {
    EncodingPrefix(videoPath) + AudioInput(audioPath)
    + ModeWords(encoder, presetArg, HasAudio(audioPath), isYouTube, isYify)
    + MapWords(HasAudio(audioPath)) + [Path(outputPath)]
  }

  /** Every encoder name the selector can produce is one argument. */
  lemma EncoderNameIsWord(name: string)
    requires name in SelectableNames
    ensures WellFormed(Flag(name))
  {
    PlainFromLower(name, 0);
  }

  /** The re-encode line splits back into its words' values. */
  lemma EncodingArgv(videoPath: string, audioPath: Option<string>, outputPath: string, encoder: string,
                     presetArg: string, isYouTube: bool, isYify: bool)
    requires Quotable(videoPath) && Quotable(outputPath) && (audioPath.Some? ==> Quotable(audioPath.value))
    requires WellFormed(Flag(encoder)) && WellFormed(Flag(presetArg))
    ensures var words := EncodingWords(videoPath, audioPath, outputPath, encoder, presetArg, isYouTube, isYify);
      SplitArgs(Line(words)) == Values(Args(words))
  {
    EncodingPlain(videoPath, audioPath, outputPath, encoder, presetArg, isYouTube, isYify);
    PlainSplit(EncodingWords(videoPath, audioPath, outputPath, encoder, presetArg, isYouTube, isYify));
  }

  lemma EncodingPlain(videoPath: string, audioPath: Option<string>, outputPath: string, encoder: string,
                      presetArg: string, isYouTube: bool, isYify: bool)
    requires Quotable(videoPath) && Quotable(outputPath) && (audioPath.Some? ==> Quotable(audioPath.value))
    requires WellFormed(Flag(encoder)) && WellFormed(Flag(presetArg))
    ensures Plain(EncodingWords(videoPath, audioPath, outputPath, encoder, presetArg, isYouTube, isYify))
  {
    var hasAudio := HasAudio(audioPath);
    var front := EncodingPrefix(videoPath) + AudioInput(audioPath);
    var mode := ModeWords(encoder, presetArg, hasAudio, isYouTube, isYify);
    var back := MapWords(hasAudio) + [Path(outputPath)];
    FrontPlain(videoPath, audioPath);
    ModePlain(encoder, presetArg, hasAudio, isYouTube, isYify);
    BackPlain(hasAudio, outputPath);
    PlainAppend(front, mode);
    PlainAppend(front + mode, back);
  }

  lemma FrontPlain(videoPath: string, audioPath: Option<string>)
    requires Quotable(videoPath) && (audioPath.Some? ==> Quotable(audioPath.value))
    ensures Plain(EncodingPrefix(videoPath) + AudioInput(audioPath))
  {
  }

  lemma ModePlain(encoder: string, presetArg: string, hasAudio: bool, isYouTube: bool, isYify: bool)
    requires WellFormed(Flag(encoder)) && WellFormed(Flag(presetArg))
    ensures Plain(ModeWords(encoder, presetArg, hasAudio, isYouTube, isYify))
  {
  }

  lemma BackPlain(hasAudio: bool, outputPath: string)
    requires Quotable(outputPath)
    ensures Plain(MapWords(hasAudio) + [Path(outputPath)])
  {
  }

  lemma PlainAppend(a: seq<Word>, b: seq<Word>)
    requires Plain(a) && Plain(b)
    ensures Plain(a + b)
  {
  }
}
