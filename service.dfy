/** The service object: the engine path it was given, the probed encoder list with its cache
    flag, the engine process it started with the output path of that run, and what it reports
    through its logger and its busy-state callback. Starting a process, reading its output and
    the operating system's answers are inputs of the methods. */
module Service {
  import opened Wrappers
  import opened CommandLine
  import opened Paths
  import opened Encoders
  import opened EncoderList
  import opened Arguments
  import opened Processes

  /** How the encoder-list probe went: the engine could not be started (`Process.Start`
      returned null), an exception was thrown with its message, or the engine printed its list. */
  datatype ProbeRun = NotStarted | Threw(message: string) | Completed(output: string)

  /** What `Process.Start` did when a run was started: it returned a process (null when nothing
      was started), or it threw an exception with the given message. */
  datatype SpawnResult = Spawned(process: EngineProcess?) | SpawnThrew(message: string)

  /** `StringBuilder.Append` of a fragment of words after the words already written, with the
      separating space. */
  method AppendWords(line: string, ghost words: seq<Word>, fragment: seq<Word>) returns (extended: string)
    requires words != [] && fragment != [] && line == Line(words)
    ensures extended == Line(words + fragment)
  {
    LineAppend(words, fragment);
    extended := line + " " + Line(fragment);
  }

  /** The string builder of the re-encode line, once the encoder and the preset are resolved:
      the fixed prefix, the audio input, the mode's settings, the stream maps and the output. */
  method WriteEncodingLine(videoPath: string, audioPath: Option<string>, outputPath: string, encoder: string,
                           presetArg: string, isYouTube: bool, isYify: bool) returns (line: string)
    ensures line == Line(EncodingWords(videoPath, audioPath, outputPath, encoder, presetArg, isYouTube, isYify))
  {
    var hasAudio := HasAudio(audioPath);
    line := Line(EncodingPrefix(videoPath));

    ghost var front := EncodingPrefix(videoPath) + AudioInput(audioPath);
    if hasAudio {
      line := AppendWords(line, EncodingPrefix(videoPath), AudioInput(audioPath));
    } else {
      assert front == EncodingPrefix(videoPath);
    }

    ghost var mode := ModeWords(encoder, presetArg, hasAudio, isYouTube, isYify);
    if isYouTube {
      line := AppendWords(line, front, YouTubeWords(encoder));
    } else if isYify {
      line := AppendWords(line, front, YifyWords(encoder));
    } else {
      line := AppendWords(line, front, CustomVideo(encoder, presetArg));
      line := AppendWords(line, front + CustomVideo(encoder, presetArg), CustomAudio(hasAudio));
      AppendAssociates(front, CustomVideo(encoder, presetArg), CustomAudio(hasAudio));
    }

    line := AppendWords(line, front + mode, MapWords(hasAudio));
    line := AppendWords(line, front + mode + MapWords(hasAudio), [Path(outputPath)]);
  }

  lemma AppendAssociates<T>(a: seq<T>, b: seq<T>, c: seq<T>)
    ensures (a + b) + c == a + (b + c)
  {
  }

  class FfmpegService {
    var ffmpegPath: Option<string>
    var availableEncoders: seq<string>
    var encodersProbed: bool
    var ffmpegProcess: EngineProcess?
    var currentOutputPath: Option<string>
    /** The messages passed to `Logger`, oldest first. */
    var log: seq<string>
    /** The values passed to `UiStateSetter`, oldest first (true: an engine run is busy). */
    var uiStates: seq<bool>

    constructor ()
      ensures ffmpegPath.None? && availableEncoders == [] && !encodersProbed
      ensures ffmpegProcess == null && currentOutputPath.None? && log == [] && uiStates == []
    {
      ffmpegPath := None;
      availableEncoders := [];
      encodersProbed := false;
      ffmpegProcess := null;
      currentOutputPath := None;
      log := [];
      uiStates := [];
    }

    /** Stores the given path, then returns the first existing engine candidate. */
    method ResolveFfmpegPath(candidate: Option<string>, baseDir: string, fileExists: string -> bool)
      returns (r: Option<string>)
      modifies this`ffmpegPath
      ensures ffmpegPath == candidate
      ensures r == ResolveEnginePath(candidate, baseDir, fileExists)
    {
      ffmpegPath := candidate;
      r := ResolveEnginePath(candidate, baseDir, fileExists);
    }

    /** A new engine path invalidates the probed encoder list. */
    method SetFfmpegPath(path: string)
      modifies this`ffmpegPath, this`encodersProbed
      ensures ffmpegPath == Some(path) && !encodersProbed
    {
      ffmpegPath := Some(path);
      encodersProbed := false;
    }

    /** Probes the engine's encoder list once: after a completed run the list holds exactly
        the identifiers of the listing's matches, in order, and the flag is set; a run that did
        not start or threw changes nothing (the exception's message goes to `logged`). */
    method EnsureEncoderProbe(run: ProbeRun) returns (logged: seq<string>)
      modifies this`availableEncoders, this`encodersProbed
      ensures old(encodersProbed) ==> availableEncoders == old(availableEncoders) && encodersProbed && logged == []
      ensures !old(encodersProbed) && run.Completed? ==>
                availableEncoders == ScanEncoders(run.output) && encodersProbed && logged == []
      ensures !old(encodersProbed) && run.NotStarted? ==>
                availableEncoders == old(availableEncoders) && !encodersProbed && logged == []
      ensures !old(encodersProbed) && run.Threw? ==>
                availableEncoders == old(availableEncoders) && !encodersProbed
                && logged == ["Could not probe encoders: " + run.message]
    {
      logged := [];
      if encodersProbed {
        return;
      }
      match run
      case NotStarted =>
        return;
      case Threw(message) =>
        logged := ["Could not probe encoders: " + message];
        return;
      case Completed(output) =>
        ReadEncoderListing(output);
        encodersProbed := true;
    }

    /** Clears the list, then appends the identifier of every match in the listing, scanning
        left to right. */
    method ReadEncoderListing(output: string)
      modifies this`availableEncoders
      ensures availableEncoders == ScanEncoders(output)
    {
      availableEncoders := [];
      var rest := output;
      while rest != []
        invariant availableEncoders + ScanEncoders(rest) == ScanEncoders(output)
        decreases |rest|
      {
        match MatchAt(rest)
        case Some(m) =>
          availableEncoders := availableEncoders + [m.name];
          rest := rest[m.length..];
        case None =>
          rest := rest[1..];
      }
    }

    /** The re-encode line, appended fragment by fragment: the encoder is resolved against the
        probed list and the preset lower-cased before anything is appended. */
    method BuildEncodingArgs(videoPath: string, audioPath: Option<string>, outputPath: string,
                             encoder: VideoEncoderOption, preset: EncodePreset, isYouTube: bool, isYify: bool)
      returns (line: string)
      ensures var words := EncodingWords(videoPath, audioPath, outputPath,
                                         ResolveEncoderChoice(encoder, availableEncoders), PresetArg(preset),
                                         isYouTube, isYify);
        && line == Line(words)
        && (Quotable(videoPath) && Quotable(outputPath) && (audioPath.Some? ==> Quotable(audioPath.value)) ==>
              SplitArgs(line) == Values(Args(words)))
    {
      var encoderString := ResolveEncoderChoice(encoder, availableEncoders);
      var presetString := PresetArg(preset);
      line := WriteEncodingLine(videoPath, audioPath, outputPath, encoderString, presetString, isYouTube, isYify);
      if Quotable(videoPath) && Quotable(outputPath) && (audioPath.Some? ==> Quotable(audioPath.value)) {
        EncoderNameIsWord(encoderString);
        EncodingArgv(videoPath, audioPath, outputPath, encoderString, presetString, isYouTube, isYify);
      }
    }

    /** Records the output path and the spawned process; a started process gets the priority and
        the busy state is reported. When `Process.Start` throws, the output path is already
        recorded, the previous process is kept, nothing is reported and the exception's message
        is returned as `escaped`, since it propagates to the caller. */
    method StartProcess(spawn: SpawnResult, priority: PriorityClass, outputPath: Option<string>)
      returns (escaped: Option<string>)
      modifies this`currentOutputPath, this`ffmpegProcess, this`log, this`uiStates
      modifies if spawn.Spawned? && spawn.process != null then {spawn.process} else {}
      ensures currentOutputPath == outputPath
      ensures spawn.SpawnThrew? ==>
                && escaped == Some(spawn.message) && ffmpegProcess == old(ffmpegProcess)
                && log == old(log) && uiStates == old(uiStates)
      ensures spawn.Spawned? ==> escaped.None? && ffmpegProcess == spawn.process
      ensures spawn.Spawned? && spawn.process == null ==>
                log == old(log) + ["Failed to start ffmpeg process.\n"] && uiStates == old(uiStates)
      ensures spawn.Spawned? && spawn.process != null ==>
                && spawn.process.priority == priority && spawn.process.hasExited == old(spawn.process.hasExited)
                && spawn.process.killed == old(spawn.process.killed)
                && log == old(log) && uiStates == old(uiStates) + [true]
    {
      currentOutputPath := outputPath;
      match spawn
      case SpawnThrew(message) =>
        escaped := Some(message);
      case Spawned(process) =>
        escaped := None;
        ffmpegProcess := process;
        if process == null {
          log := log + ["Failed to start ffmpeg process.\n"];
          return;
        }
        process.priority := priority;
        uiStates := uiStates + [true];
    }

    /** Kills a live process and says so; the idle state is reported in every case. */
    method StopProcess()
      modifies this`log, this`uiStates, ffmpegProcess
      ensures var p := ffmpegProcess;
        && (p != null && !old(p.hasExited) ==> p.killed && log == old(log) + ["Encoding stopped by user.\n"])
        && (p == null || old(p.hasExited) ==> log == old(log))
        && (p != null && old(p.hasExited) ==> p.killed == old(p.killed))
        && (p != null ==> p.hasExited == old(p.hasExited) && p.priority == old(p.priority))
        && uiStates == old(uiStates) + [false]
    {
      if ffmpegProcess != null && !ffmpegProcess.hasExited {
        ffmpegProcess.Kill();
        log := log + ["Encoding stopped by user.\n"];
      }
      uiStates := uiStates + [false];
    }

    /** Suspends a live process's threads; without one nothing happens. */
    method PauseProcess()
      modifies if ffmpegProcess != null then {ffmpegProcess.threads} else {}
      ensures ffmpegProcess != null && !ffmpegProcess.hasExited && ffmpegProcess.name != "" ==>
                ffmpegProcess.threads[..] == SuspendAll(old(ffmpegProcess.threads[..]))
      ensures ffmpegProcess != null && (ffmpegProcess.hasExited || ffmpegProcess.name == "") ==>
                ffmpegProcess.threads[..] == old(ffmpegProcess.threads[..])
    {
      if ffmpegProcess != null && !ffmpegProcess.hasExited {
        SuspendProcess(ffmpegProcess);
      }
    }

    /** Resumes a live process's threads; without one nothing happens. */
    method ResumeProcess()
      modifies if ffmpegProcess != null then {ffmpegProcess.threads} else {}
      ensures ffmpegProcess != null && !ffmpegProcess.hasExited && ffmpegProcess.name != "" ==>
                ffmpegProcess.threads[..] == ResumeAll(old(ffmpegProcess.threads[..]))
      ensures ffmpegProcess != null && (ffmpegProcess.hasExited || ffmpegProcess.name == "") ==>
                ffmpegProcess.threads[..] == old(ffmpegProcess.threads[..])
    {
      if ffmpegProcess != null && !ffmpegProcess.hasExited {
        ResumeProcessThreads(ffmpegProcess);
      }
    }

    /** `SuspendProcess(pid)`, with the process the id names given directly: every thread that
        can be opened is suspended once more; an unnamed process is left alone. */
    method SuspendProcess(process: EngineProcess)
      modifies process.threads
      ensures process.name == "" ==> process.threads[..] == old(process.threads[..])
      ensures process.name != "" ==> process.threads[..] == SuspendAll(old(process.threads[..]))
    {
      if process.name == "" {
        return;
      }
      var threads := process.threads;
      var i := 0;
      while i < threads.Length
        invariant 0 <= i <= threads.Length
        invariant forall k :: 0 <= k < i ==> threads[k] == Suspended(old(threads[k]))
        invariant forall k :: i <= k < threads.Length ==> threads[k] == old(threads[k])
      {
        if !threads[i].openable {
          i := i + 1;
          continue;
        }
        var _ := SuspendThread(threads, i);
        i := i + 1;
      }
    }

    /** `ResumeProcess(pid)`, with the process the id names given directly: every thread that
        can be opened is resumed until `ResumeThread` reports a previous count of at most 0. */
    method ResumeProcessThreads(process: EngineProcess)
      modifies process.threads
      ensures process.name == "" ==> process.threads[..] == old(process.threads[..])
      ensures process.name != "" ==> process.threads[..] == ResumeAll(old(process.threads[..]))
    {
      if process.name == "" {
        return;
      }
      var threads := process.threads;
      var i := 0;
      while i < threads.Length
        invariant 0 <= i <= threads.Length
        invariant forall k :: 0 <= k < i ==> threads[k] == Resumed(old(threads[k]))
        invariant forall k :: i <= k < threads.Length ==> threads[k] == old(threads[k])
      {
        if !threads[i].openable {
          i := i + 1;
          continue;
        }
        var suspendCount := ResumeThread(threads, i);
        while suspendCount > 0
          invariant threads[i].openable
          invariant threads[i] == old(threads[i]).(suspendCount := if suspendCount > 0 then suspendCount - 1 else 0)
          invariant forall k :: 0 <= k < i ==> threads[k] == Resumed(old(threads[k]))
          invariant forall k :: i < k < threads.Length ==> threads[k] == old(threads[k])
          decreases suspendCount
        {
          suspendCount := ResumeThread(threads, i);
        }
        i := i + 1;
      }
    }

    /** Sets a live process's priority and reports it; `failure` is the message of the
        exception the setter threw, if it did. Without a live process nothing happens. */
    method UpdatePriority(priority: PriorityClass, failure: Option<string>)
      modifies this`log, ffmpegProcess
      ensures var p := ffmpegProcess;
        && (p != null && !old(p.hasExited) && failure.None? ==>
              p.priority == priority && log == old(log) + ["Process priority updated to " + PriorityName(priority) + ".\n"])
        && (p != null && !old(p.hasExited) && failure.Some? ==>
              p.priority == old(p.priority) && log == old(log) + ["Failed to update process priority: " + failure.value + "\n"])
        && (p == null || old(p.hasExited) ==> log == old(log))
        && (p != null && old(p.hasExited) ==> p.priority == old(p.priority))
        && (p != null ==> p.hasExited == old(p.hasExited) && p.killed == old(p.killed))
    {
      if ffmpegProcess != null && !ffmpegProcess.hasExited {
        if failure.None? {
          ffmpegProcess.priority := priority;
          log := log + ["Process priority updated to " + PriorityName(priority) + ".\n"];
        } else {
          log := log + ["Failed to update process priority: " + failure.value + "\n"];
        }
      }
    }
  }
}
