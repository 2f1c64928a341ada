/** The per-line filter of the progress monitor: a line of the engine's `-progress` stream
    yields a sample only when it carries the `out_time_us` key and a value that is not `N/A`
    and parses. Samples are the engine's microsecond counts. */
module Progress {
  import opened Wrappers
  import opened Text

  const ProgressKey: string := "out_time_us="

  predicate StartsWith(line: string, prefix: string) {
    |prefix| <= |line| && line[..|prefix|] == prefix
  }

  /** The sample a progress line carries, if any. */
  function ProgressSample(line: string): (r: Option<int>)
    ensures !StartsWith(line, ProgressKey) ==> r.None?
    ensures r.Some? ==> Trim(line[|ProgressKey|..]) != "N/A"
  {
    if StartsWith(line, ProgressKey) then
      var value := Trim(line[|ProgressKey|..]);
      if value != "N/A" then ParseInteger(value) else None
    else None
  }

  /** The line the engine writes for a position reads back as that position, whatever
      whitespace surrounds the value. */
  lemma SampleRoundTrip(before: string, micros: int, after: string)
    requires AllWhiteSpace(before) && AllWhiteSpace(after)
    ensures ProgressSample(ProgressKey + before + IntToText(micros) + after) == Some(micros)
  {
    var text := IntToText(micros);
    var line := ProgressKey + before + text + after;
    assert line[..|ProgressKey|] == ProgressKey;
    assert line[|ProgressKey|..] == before + text + after;
    TrimPadded(before, text, after);
    assert text[0] != "N/A"[0];
    IntegerRoundTrip(micros);
  }

  /** Before the first frame the engine writes `N/A`, which yields no sample. */
  lemma NotAvailableSkipped(before: string, after: string)
    requires AllWhiteSpace(before) && AllWhiteSpace(after)
    ensures ProgressSample(ProgressKey + before + "N/A" + after).None?
  {
    var line := ProgressKey + before + "N/A" + after;
    assert line[..|ProgressKey|] == ProgressKey;
    assert line[|ProgressKey|..] == before + "N/A" + after;
    TrimPadded(before, "N/A", after);
  }
}
