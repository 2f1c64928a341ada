# FfmpegService, modelled in Dafny

This project models the core of `FfmpegService`, the class of the ReMux2 desktop tool that drives
the ffmpeg engine. It covers the following:

- choosing a video encoder from the list the engine reports, either for the `Auto` option or as
  the best hardware encoder of a codec family;
- probing and caching that list, with the regular expression `V.....\s+([a-zA-Z0-9_]+)` written
  out as a left-to-right scanner, and which listing lines it reads correctly;
- the output-path builders and the audio-codec table;
- the three argument lines handed to the engine: extract audio, remux and re-encode;
- the fallback duration parser over the engine's `Duration:` banner;
- the filter that turns a line of the `-progress` stream into a sample;
- the session state: the started process, stop, pause, resume and priority updates;
- the thread suspend and resume loops over a snapshot of suspend counts;
- where the engine and its probe tool are looked for.

The pure parts are functions and lemmas:

- `Encoders`, `Search`, `Paths`, `EncoderList`, `Arguments` and `EncodingFacts` hold the encoder
  selection, the searches, the paths, the listing scanner and the argument lines.
- `Duration` and `Progress` hold the two parsers.
- `Processes` holds the thread-count arithmetic.

The parts of the source that change state are the class `Service.FfmpegService`. Its fields are
the engine path, the encoder list and its probed flag, the current process and output path, and
what the service passes to its logger and busy-state callback. The string-builder code and the
thread loops are methods proved against those functions.

Each argument line is the list of its words joined by single blanks, with paths in double quotes.
`CommandLine.SplitArgs` reads such a line back the way the engine's runtime splits a command
line. So the contracts can say which arguments the engine receives, not only which characters
the line holds.

The following are inputs to the model rather than things it computes:

- `ProbeRun`: whether the encoder probe started, threw or completed, and the text it printed.
- `Option<string>`: the diagnostic text of the duration probe.
- `SpawnResult`: the process that `Process.Start` returned (null when nothing started), or the
  exception it threw.
- `fileExists`: the existence of files.
- `ThreadRecord.openable`: whether `OpenThread` succeeds on a thread.
- `failure`: the exception thrown when setting a priority.

The model follows the code in three places where one might expect otherwise:

- A failed or unstarted probe leaves the encoder list as it was. The code clears the list only
  after the engine has started.
- `ResolveFfmpegPath` stores its argument but does not reset the probed flag. Only
  `SetFfmpegPath` does.
- A failure to start the engine is logged only when `Process.Start` returns null. When it
  throws, `StartProcess` has already recorded the new output path, keeps the previous process,
  logs nothing, reports no busy state and lets the exception reach its caller.

## Model

| member | source | states |
|---|---|---|
| Encoders.DetermineAutoEncoder | FfmpegService.cs:187-204 | The result is available or `libx264`. It is the first available H.264 hardware encoder when there is one, else `libx264` when available, else the first available HEVC hardware encoder, else `libx265` when available, else `libx264`. |
| Encoders.ResolveEncoderChoice | FfmpegService.cs:181-185 | A non-`Auto` option gives its own enum name. `Auto` gives a name that is available or `libx264`. Every result is one of the twelve selectable encoder names. |
| Encoders.ContainsIgnoreCase | FfmpegService.cs:208 | True exactly when the pattern occurs at some index, comparing characters with ASCII letters folded to lower case. |
| Encoders.DetermineBestHardwareEncoder | FfmpegService.cs:206-217 | The H.264 list is used when the codec names x264 or h264 in any case, else the HEVC list. The result is none exactly when no entry of that list is available. Otherwise it is the earliest available entry, and it is in the probed list. |
| Encoders.BestHardwareIsHardware | FfmpegService.cs:206-217 | The hardware search never returns `libx264` or `libx265`. |
| Encoders.FirstPresentUnique | FfmpegService.cs:189-193 | The first available entry of a priority list is unique. |
| Encoders.AutoPrefersH264 | FfmpegService.cs:187-194 | While `libx264` is available, Auto picks an H.264 hardware encoder or `libx264`, never an HEVC one. |
| Encoders.AutoAgreesWithBestHardware | FfmpegService.cs:187-217 | The best H.264 hardware encoder is what Auto picks. Without one and without `libx264`, the best HEVC hardware encoder is Auto's pick. |
| Encoders.AutoExamples | FfmpegService.cs:187-194 | A list with `h264_qsv`, `h264_nvenc` and `libx264` gives `h264_qsv`. A list with only `libx264` gives `libx264`. |
| Search.FirstPresent | FfmpegService.cs:189-193 | The result is none exactly when no candidate is present. Otherwise it is the earliest present candidate. |
| Search.FirstPresentAfterMiss | FfmpegService.cs:189-193 | Skipping an absent first candidate keeps the earliest present one. |
| Search.FirstPresentAt | FfmpegService.cs:26-37 | A present candidate with no present one before it is the one the search returns. |
| Paths.Combine | FfmpegService.cs:31 | The result starts with the directory and ends with the name. Between them is one backslash, left out exactly when the directory is empty or already ends in `\` or `/`. An empty directory gives the name itself. |
| Paths.CombineInjective | FfmpegService.cs:260 | Two names combined under one directory give equal paths only when the names are equal. |
| Paths.CombineDistinct | FfmpegService.cs:260 | Different names under one directory give different paths. |
| Paths.ResolveEnginePath | FfmpegService.cs:26-37 | The result exists and is the first existing candidate: the given non-empty path, then `ffmpeg.exe` beside the application, then `ffmpeg\bin\ffmpeg.exe`. It is none exactly when none of them exists. |
| Paths.ResolveProbePath | FfmpegService.cs:40-58 | The same search for `ffprobe.exe`: beside the engine when its directory is non-empty, then beside the application, then in the bundle. |
| Paths.GivenEngineWins | FfmpegService.cs:26-29 | An existing non-empty given path is returned unchanged. |
| Paths.LocalEngineBeatsBundle | FfmpegService.cs:31-35 | Without a usable given path, an existing local engine wins over the bundled one. |
| Paths.SiblingProbeWins | FfmpegService.cs:44-49 | An existing `ffprobe.exe` beside the engine wins over every other copy. |
| EncoderList.MatchAt | FfmpegService.cs:241 | No match is reported exactly when the pattern matches nowhere at the start of the text. A reported match is at least eight characters long and captures a non-empty identifier. |
| EncoderList.MatchAtCapture | FfmpegService.cs:241 | A pattern match whose identifier cannot be extended is exactly the match reported. |
| EncoderList.CaptureEnd | FfmpegService.cs:241 | Two pattern matches with the same capture start whose identifiers cannot be extended end at the same place. |
| EncoderList.MatchAtIsLongest | FfmpegService.cs:241 | Every pattern match at a position has the reported capture start, and it ends no later than the reported match: the identifier is greedy. |
| EncoderList.ScanEncoders | FfmpegService.cs:241-245 | Every captured name is a non-empty identifier. |
| EncoderList.ScanSkipsText | FfmpegService.cs:241 | Text without a `V` contributes no name. |
| EncoderList.ScanNoMatch | FfmpegService.cs:241-245 | Where no match starts, the scan resumes one character later. |
| EncoderList.ListingRoundTrip | FfmpegService.cs:240-245 | Scanning a listing gives exactly the names of its video encoders, in order, when every description is quiet. Each line is rendered as the engine writes it on Windows: the name padded to twenty columns, and the line ended by `\r\n`, whose `\r` the whole-output read keeps. |
| EncoderList.ScanSkipsQuiet | FfmpegService.cs:241-245 | Text in which no match starts contributes no name. |
| EncoderList.QuietNoMatch | FfmpegService.cs:241 | A quiet `V` of a description starts no match, whatever line follows. Quiet means one of three things: the `V` is among the description's last four characters, or the character six places on is not whitespace, or that whitespace ends inside the description at a character that starts no identifier. |
| EncoderList.ScanSkipsDescription | FfmpegService.cs:241-245 | A quiet description and its newline contribute no name, whatever follows. |
| EncoderList.ScanVideoLine | FfmpegService.cs:241-245 | A well-formed video line contributes exactly its name. |
| EncoderList.ScanOtherLine | FfmpegService.cs:241-245 | A well-formed line of another media type contributes nothing. |
| EncoderList.ScanTakesWord | FfmpegService.cs:241-245 | A `V`, five characters on one line, whitespace and an identifier that cannot be extended yield that identifier, and the scan resumes after it. |
| EncoderList.DescriptionWordTaken | FfmpegService.cs:241-245 | In a description, `VFrame to` followed by the line end yields the name `to`. This is the line of `wrapped_avframe`. |
| EncoderList.AvFrameDescriptionNotQuiet | FfmpegService.cs:241 | "AVFrame to AVPacket passthrough" is not quiet. |
| EncoderList.VideoParenTakesNextFlag | FfmpegService.cs:241-245 | A description ending in `Video)`, followed by the next line's ` V`, yields the name `V`. The whitespace run crosses the line end. |
| EncoderList.VideoEndTakesNextFlag | FfmpegService.cs:241-245 | A description ending in `Video`, followed by the next line's ` V`, yields the name `V` too. The `.....` takes `ideo` and the `\r`, and the whitespace run takes the `\n`. This is what follows the `amv` and `utvideo` lines. |
| EncoderList.AmvDescriptionNotQuiet | FfmpegService.cs:241 | "AMV Video" is not quiet. |
| EncoderList.ExrNameLost | FfmpegService.cs:241-245 | After a description ending in "Video)", as `dvvideo`'s does, the rendered `exr` line yields only `V`, so `exr` is lost. |
| EncoderList.ExrLineAlone | FfmpegService.cs:241-245 | On its own, the `exr` line yields `exr`. |
| EncoderList.DvDescriptionNotQuiet | FfmpegService.cs:241 | "DV (Digital Video)" is not quiet. |
| EncoderList.Libx264LineRead | FfmpegService.cs:241-245 | The `libx264` line, whose description holds two `V`s, yields exactly `libx264`. |
| EncoderList.LegendLineYieldsA | FfmpegService.cs:241-245 | The legend line ` V..... = Video`, followed by ` A..... = Audio`, yields the name `A`: the audio flag is taken for an encoder. |
| EncoderList.HyphenatedNameIsCut | FfmpegService.cs:241 | `libvpx-vp9` is captured as `libvpx`, because the identifier stops at the hyphen. |
| Arguments.PresetArg | FfmpegService.cs:136 | The argument has the preset name's length, and each of its characters is the name's character lower-cased. It holds no upper-case letter and is a single argument. |
| Arguments.PresetArgExample | FfmpegService.cs:136 | `Medium` becomes `medium`. |
| Arguments.AudioExtension | FfmpegService.cs:267-274 | The extension is `.m4a`, `.mp3`, `.wav` or `.flac`. `aac` gives `.m4a`. For mp3, wav and flac it is the codec's own name after a dot. Any other codec gives `.wav`. |
| Arguments.ResolveAudioCodec | FfmpegService.cs:284-294 | The encoder is one of four: `aac` for aac, `libmp3lame` for mp3, `pcm_s16le` for wav, `flac` for flac. Any other codec gives `pcm_s16le`. |
| Arguments.ExtensionFitsCodec | FfmpegService.cs:263-294 | For every requested codec, the output extension is the container of the encoder actually used. |
| Arguments.GetOutputPath | FfmpegService.cs:255-261 | The path starts with the input's directory, or with the application directory when the input has none. It ends in the input's stem, `_encoded`, a dot and the container name. At most one separator lies between the two. |
| Arguments.OutputNeverOverwritesInput | FfmpegService.cs:255-261 | When the input's directory is known, the encoded file is never the input file. |
| Arguments.GetAudioOutputPath | FfmpegService.cs:263-276 | The path starts with the input's directory, or with the application directory when the input has none. It ends in the input's stem and the codec's extension. At most one separator lies between the two. |
| Arguments.AudioOutputOverwritesInputIff | FfmpegService.cs:263-276 | The extracted audio path is the input path itself exactly when the input already has the codec's extension. |
| Arguments.SpellingIsPlain | FfmpegService.cs:130-176 | Every fixed word of the argument lines is one argument, without blanks or quotes. |
| Arguments.Args | FfmpegService.cs:130-176 | One argument per word, in order. |
| Arguments.PlainSplit | FfmpegService.cs:130-176 | A line of single-argument names and quote-free paths splits back into exactly the words' values. |
| Arguments.LineAppend | FfmpegService.cs:137-176 | Appending a blank and a fragment renders the concatenated word list. |
| Arguments.BuildExtractAudioArgs | FfmpegService.cs:278-282 | The label is `Extracting audio`. With quote-free paths, the engine receives `-y -hide_banner -nostats -progress pipe:1 -i <in> -vn -acodec <encoder> <out>`. |
| Arguments.ExtractAudioArgv | FfmpegService.cs:278-282 | The extract line splits into those eleven arguments. |
| Arguments.AudioEncoderIsWord | FfmpegService.cs:284-294 | Every resolved audio encoder is one argument. |
| Arguments.ExtractAudioValues | FfmpegService.cs:281 | The extract line's words have those eleven values. |
| Arguments.ExtractMp3Example | FfmpegService.cs:263-282 | Extracting mp3 from `C:\media\clip.mkv` writes `C:\media\clip.mp3`. The engine receives eleven arguments, with `libmp3lame` as the encoder. |
| Arguments.BuildRemuxArgs | FfmpegService.cs:128-131 | With quote-free paths, the engine receives two inputs, `-c copy`, `-map 0:v:0 -map 1:a:0` and the output, in that order. |
| Arguments.RemuxArgv | FfmpegService.cs:128-131 | The remux line splits into those sixteen arguments. |
| Arguments.RemuxValues | FfmpegService.cs:130 | The remux line's words have those sixteen values. |
| Arguments.EncoderNameIsWord | FfmpegService.cs:135 | Every selectable encoder name is one argument. |
| Arguments.EncodingArgv | FfmpegService.cs:133-179 | With quote-free paths, the re-encode line splits into exactly its words' values. |
| Arguments.EncodingPlain | FfmpegService.cs:133-179 | The re-encode words are single-argument names and quote-free paths. |
| Arguments.FrontPlain | FfmpegService.cs:139-144 | The same for the fixed prefix and the audio input. |
| Arguments.ModePlain | FfmpegService.cs:146-165 | The same for the mode's settings. |
| Arguments.BackPlain | FfmpegService.cs:167-176 | The same for the stream maps and the output. |
| Arguments.PlainAppend | FfmpegService.cs:137-176 | Plain fragments concatenate to a plain line. |
| EncodingFacts.EncodingInputs | FfmpegService.cs:139-176 | The video path follows the first `-i` at word 8. A non-empty audio path follows a second `-i` at word 10. The output path is the last word. |
| EncodingFacts.EncodingInputsOnly | FfmpegService.cs:139-176 | No other `-i` occurs, before the video's or after the inputs. |
| EncodingFacts.EncodingGlobalOptions | FfmpegService.cs:139 | The first seven words are `-y -hide_banner -nostats -v verbose -progress pipe:1`. |
| EncodingFacts.EncodingQuality | FfmpegService.cs:146-152 | For YouTube and Yify, `-crf` comes right after the preset value, followed by `18` for YouTube or `22` for Yify. For YouTube, `-movflags` is followed by `+faststart` at the end of the settings. |
| EncodingFacts.EncodingBitrate | FfmpegService.cs:146-165 | Whenever audio is encoded to AAC, `-b:a` follows `aac`. Its value is `128k` for Yify and `192k` for YouTube and for a custom encode with separate audio. |
| EncodingFacts.EncodingMaps | FfmpegService.cs:167-176 | The words before the output are `-map 0:v:0 -map`, then `1:a:0` when there is an audio path and `0:a:0?` when there is none. |
| EncodingFacts.EncodingSettings | FfmpegService.cs:146-165 | `-c:v` carries the resolved encoder. `-preset` carries `slow` for YouTube and Yify, else the lower-cased preset. `-c:a` carries `aac`, except for a custom encode without audio, which carries `copy`. |
| EncodingFacts.EncodingModes | FfmpegService.cs:146-174 | Each of these holds in both directions. `-crf 18` and `+faststart` occur exactly for YouTube, which wins over Yify. `-crf 22` occurs exactly for Yify. `copy` occurs exactly for a custom encode without audio. `1:a:0` is mapped exactly when there is an audio path, and `0:a:0?` exactly when there is none. |
| EncodingFacts.PrefixMarks | FfmpegService.cs:139 | The fixed prefix holds none of the mode or map words. |
| EncodingFacts.ModeMarks | FfmpegService.cs:146-165 | Which mode words each branch contains, and that it contains no `-i`. |
| EncodingFacts.YouTubeMarks | FfmpegService.cs:148 | The YouTube settings hold `-crf 18` and `+faststart` and not `22` or `copy`. |
| EncodingFacts.YifyMarks | FfmpegService.cs:152 | The Yify settings hold `22` and none of `18`, `+faststart` or `copy`. |
| EncodingFacts.CustomMarks | FfmpegService.cs:156-164 | A custom encode holds `copy` exactly when there is no audio path. |
| EncodingFacts.MapMarks | FfmpegService.cs:167-174 | The maps name `1:a:0` with audio and `0:a:0?` without, and hold no `-i`. |
| Duration.FindBanner | FfmpegService.cs:111 | The leftmost position at or after the start where the pattern matches, or none when it matches nowhere. |
| Duration.BannerAtIffPattern | FfmpegService.cs:111 | Reading greedy whitespace loses no match: the pattern matches at a position exactly when some amount of whitespace leads to the clock. |
| Duration.FallbackDuration | FfmpegService.cs:105-125 | Gives 0 when the engine did not start, and 0 when the banner has no match. |
| Duration.Field | FfmpegService.cs:111 | A two-digit field is two ASCII digits. |
| Duration.Clock | FfmpegService.cs:111 | A printed clock has the `DD:DD:DD.DD` shape. |
| Duration.ClockValue | FfmpegService.cs:114-117 | A printed clock reads back as hours * 3600 + minutes * 60 + seconds, in hundredths. |
| Duration.BannerRoundTrip | FfmpegService.cs:111-118 | A banner with the marker, any whitespace and a clock reports that clock's value in hundredths. |
| Duration.FallbackAt | FfmpegService.cs:111-118 | The reported value is the clock of the leftmost match. |
| Duration.BannerAfter | FfmpegService.cs:111 | The marker, whitespace and a clock form a match whose first field is the clock. |
| Duration.NoBannerBefore | FfmpegService.cs:111 | Text without a `D` holds no match. |
| Duration.SpaceRunAppend | FfmpegService.cs:111 | `\s*` consumes exactly the whitespace before a non-whitespace character. |
| Progress.ProgressSample | FfmpegService.cs:388-391 | Only lines starting with `out_time_us=` can yield a sample, and never one whose trimmed value is `N/A`. |
| Progress.SampleRoundTrip | FfmpegService.cs:388-391 | An `out_time_us=` line with a whitespace-padded integer yields that integer. |
| Progress.NotAvailableSkipped | FfmpegService.cs:391 | An `out_time_us=N/A` line yields no sample. |
| Text.SpaceRun | FfmpegService.cs:111 | The greedy `\s` run covers only whitespace and stops at a non-whitespace character. |
| Text.WordRun | FfmpegService.cs:241 | The greedy `[a-zA-Z0-9_]` run covers only word characters and stops at any other character. |
| Text.DigitsRoundTrip | FfmpegService.cs:391 | Rendering a natural number and reading it back gives the number. |
| Text.IntegerRoundTrip | FfmpegService.cs:391 | Rendering an integer and parsing it back gives the integer. |
| Text.TrimStart | FfmpegService.cs:390 | Only leading whitespace is removed, and the result starts with a non-whitespace character. |
| Text.TrimEnd | FfmpegService.cs:390 | Only trailing whitespace is removed, and the result ends with a non-whitespace character. |
| Text.Trim | FfmpegService.cs:390 | The result is what remains after removing only whitespace from both ends. Its own ends are not whitespace. A string already without whitespace ends is kept. |
| Text.TrimPadded | FfmpegService.cs:390 | Trimming removes exactly the whitespace padding around a word. |
| Text.LowerAscii | FfmpegService.cs:136 | Lower-casing acts character by character and keeps the length. |
| CommandLine.JoinAppend | FfmpegService.cs:137-176 | Joining two non-empty word lists is joining each, with a blank between. |
| CommandLine.ReadRendered | FfmpegService.cs:130-176 | A rendered word followed by a blank, or by nothing, reads back as its value. |
| CommandLine.SplitOne | FfmpegService.cs:130-176 | The rendering of one well-formed word splits back into its value alone. |
| CommandLine.SplitFront | FfmpegService.cs:130-176 | A rendered word, a blank and any further text split into the word's value followed by the split of that text. |
| CommandLine.SplitJoin | FfmpegService.cs:130-176 | Splitting the joined line of well-formed words gives exactly their values. |
| Processes.SuspendAll | FfmpegService.cs:457-468 | The snapshot after one suspend pass has the same threads, each passed through once. |
| Processes.ResumeAll | FfmpegService.cs:478-494 | The snapshot after one resume pass has the same threads, each passed through once. |
| Processes.SuspendedTimesCount | FfmpegService.cs:457-468 | After n passes, an openable thread's count rises by n up to 127. An unopenable thread is unchanged. |
| Processes.ResumeUndoesSuspends | FfmpegService.cs:457-494 | Resuming a thread after any number of suspends leaves it as one resume would, and an openable thread at count 0. |
| Processes.SuspendAllTimesEach | FfmpegService.cs:457-468 | n suspend calls on the snapshot act on each thread as n passes over it. |
| Processes.ResumeUndoesPauses | FfmpegService.cs:363-377 | One resume after any number of pauses gives the snapshot one resume would give, and every openable thread runs again. |
| Processes.SuspendThread | FfmpegService.cs:444-466 | Returns the previous count, or -1 at the maximum of 127. Only that thread changes, and its count rises by one below the maximum. |
| Processes.ResumeThread | FfmpegService.cs:488-491 | Returns the previous count. Only that thread changes, and its count drops by one when positive. |
| Processes.EngineProcess.Kill | FfmpegService.cs:357 | The process is marked killed. Its exit state and priority are unchanged. |
| Service.AppendWords | FfmpegService.cs:137-176 | One `StringBuilder.Append` of a fragment turns the line of the earlier words into the line of all the words. |
| Service.WriteEncodingLine | FfmpegService.cs:137-176 | The builder's text is the joined re-encode word list: prefix, audio input, the mode's settings, maps and output. |
| Service.FfmpegService.constructor | FfmpegService.cs:19-21 | No engine path and an empty unprobed encoder list. The process and output-path fields of lines 310-311 start empty too. |
| Service.FfmpegService.ResolveFfmpegPath | FfmpegService.cs:23-38 | Stores the given path and returns the first existing engine candidate. |
| Service.FfmpegService.SetFfmpegPath | FfmpegService.cs:318-322 | Stores the path and clears the probed flag. |
| Service.FfmpegService.EnsureEncoderProbe | FfmpegService.cs:219-253 | An already-probed service changes nothing. A completed run sets the list to exactly the scanned names, in order, and sets the flag. An unstarted run changes nothing. A run that threw changes nothing and logs `Could not probe encoders: ` with the message. |
| Service.FfmpegService.ReadEncoderListing | FfmpegService.cs:240-245 | After clearing and appending match by match, the list is exactly the names the scanner captures. |
| Service.FfmpegService.BuildEncodingArgs | FfmpegService.cs:133-179 | The line is the joined word list for the resolved encoder and the lower-cased preset. With quote-free paths, it splits into exactly those words' values. |
| Service.FfmpegService.StartProcess | FfmpegService.cs:324-351 | Records the output path in every case. When `Process.Start` throws, the previous process is kept, nothing is logged or reported, and the message escapes. Otherwise the returned process is recorded. A null process logs the failure, with no busy state. A started process gets the priority and busy is reported. |
| Service.FfmpegService.StopProcess | FfmpegService.cs:353-361 | A live process is killed and the stop is logged. Otherwise nothing is logged and an exited process is not killed again. The process's exit flag and priority never change. Idle is reported in every case. |
| Service.FfmpegService.PauseProcess | FfmpegService.cs:363-369 | A live, named process has every openable thread suspended once more. An exited or unnamed process is untouched. Without a process nothing may change. |
| Service.FfmpegService.ResumeProcess | FfmpegService.cs:371-377 | A live, named process has every openable thread at count 0. Otherwise nothing changes. |
| Service.FfmpegService.SuspendProcess | FfmpegService.cs:450-469 | An unnamed process is left alone. Otherwise the snapshot becomes one suspend pass over the old one: openable threads suspended once, others untouched. |
| Service.FfmpegService.ResumeProcessThreads | FfmpegService.cs:471-495 | An unnamed process is left alone. Otherwise, calling `ResumeThread` until it returns at most 0 leaves every openable thread at count 0 and every other thread untouched. |
| Service.FfmpegService.UpdatePriority | FfmpegService.cs:497-511 | For a live process, success sets the priority and logs `Process priority updated to <name>.`. A failure keeps the priority and logs `Failed to update process priority: ` with the message. Without a live process, nothing is logged or set. |

## Left out

- Process spawning, the pipes and the waits (`Process.Start`, `ReadToEndAsync`, `ReadLineAsync`, `WaitForExitAsync`) are not modelled. Their outcomes are the inputs listed above.
- The two monitor loops `MonitorProgress` and `MonitorErrors` are not modelled. They run concurrently, and only the per-line classification of progress lines is modelled.
- The percentage, the ETA and the `TimeSpan` formatting computed from a progress sample are left out, because they are floating point.
- The first half of `GetVideoDuration` is left out, because it parses the probe tool's output as a `double`. Only the fallback over the engine's banner is modelled.
- An exception while starting the engine in `GetVideoDuration` counts as an engine that did not start, so the result is 0. The message it logs is not modelled. With ASCII digits, `int.Parse` and `double.Parse` of the matched fields cannot throw.
- The kernel32 calls (`OpenThread`, `SuspendThread`, `ResumeThread`, `CloseHandle`) are not modelled. They are replaced by an array of thread records, and `OpenThread` failing is a record's `openable` flag.
- `Process.GetProcessById` is not modelled. The process the service holds is passed directly.
- Service.FfmpegService.PauseProcess and Service.FfmpegService.ResumeProcess act on one fixed array of thread records per process. The code looks the process up by id and enumerates `process.Threads` again on every call (FfmpegService.cs:452-457 and 473-478), so threads that start or end between a pause and a resume are not captured.
- The Windows `Path` helpers are not modelled. A path is a (directory, stem, extension) triple. `Path.Combine` inserts a backslash unless the directory is empty or already ends in `\` or `/`, the separators .NET checks on Windows. A rooted second argument is not modelled, because the names combined here are never rooted.
- `File.Exists` is not modelled. It is the `fileExists` predicate.
- The application directory is the `baseDir` parameter.
- The `catch` in `ResolveFfprobePath` is left out. The abstract path helpers do not throw.
- A `null` `Logger` or `UiStateSetter` is not modelled. The model records every message and every busy state as if both callbacks were set.
- Service.FfmpegService.StopProcess: an exception from `Process.Kill` (FfmpegService.cs:357) is left out. The model's kill always succeeds. In the code, such an exception would skip the log line and the idle report and reach the caller.
- An exception from setting `PriorityClass` in `StartProcess` is left out. In `UpdatePriority` it is modelled as the `failure` input.
- The private method `GetAudioCodec` is left out, because nothing calls it.
- Progress.ProgressSample: the value is read as an optional sign followed by ASCII digits. This is narrower than the grammar of `double.TryParse`, which also accepts fractions, exponents and group separators.
- Progress.StartsWith is ordinal. `String.StartsWith(string)` is culture-sensitive, which makes no difference for the ASCII key.
- Duration.FallbackDuration: `\d` is read as an ASCII digit. .NET's `\d` also matches other Unicode decimal digits, and `int.Parse` would reject them.
- EncoderList.ScanEncoders: the identifier class `[a-zA-Z0-9_]` is ASCII, as the pattern writes it.
- EncoderList.ListingRoundTrip holds only for listings whose descriptions are quiet. Real listings contain descriptions that are not quiet, and for those the code reads wrong names. DescriptionWordTaken, ExrNameLost, VideoEndTakesNextFlag and LegendLineYieldsA state such cases. With `\r\n` line ends, every description that ends in `Video` or `Video)` swallows the next line's flag.
- Encoders.ContainsIgnoreCase folds only ASCII letters. `OrdinalIgnoreCase` folds all of Unicode. The two agree for the patterns the code passes, `x264` and `h264`, because no character outside ASCII has `X` or `H` as its upper-case form.
- CommandLine.SplitArgs is a simplified reading of how the engine's runtime splits a command line. Blanks separate arguments and a double quote toggles quoting. Backslash escapes are not modelled, so the argument-list guarantees are stated only for paths without a double quote. A path that ends in a backslash is not covered either: under the runtime's real rules, the `\"` that closes its quotes becomes a literal quote.
- Service.FfmpegService.PauseProcess: "nothing changes without a process" comes from its frame (an empty `modifies` set) rather than from an `ensures` clause.
