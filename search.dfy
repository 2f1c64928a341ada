/** The early-return priority walk used by the encoder selector and the path resolvers:
    the first candidate, in list order, that is present. */
module Search {
  import opened Wrappers

  /** `x` is the earliest entry of `candidates` for which `present` holds. */
  ghost predicate IsFirstPresent(candidates: seq<string>, present: string -> bool, x: string) {
    exists k :: 0 <= k < |candidates| && candidates[k] == x && present(x) && NoneBefore(candidates, present, k)
  }

  ghost predicate NoneBefore(candidates: seq<string>, present: string -> bool, k: int) {
    forall j :: 0 <= j < k && j < |candidates| ==> !present(candidates[j])
  }

  function FirstPresent(candidates: seq<string>, present: string -> bool): (r: Option<string>)
    ensures r.None? <==> NoneBefore(candidates, present, |candidates|)
    ensures r.Some? ==> IsFirstPresent(candidates, present, r.value)
  {
    if candidates == [] then None
    else if present(candidates[0]) then
      assert candidates[0] == candidates[0] && NoneBefore(candidates, present, 0);
      Some(candidates[0])
    else
      var r := FirstPresent(candidates[1..], present);
      assert forall j :: 1 <= j < |candidates| ==> candidates[1..][j - 1] == candidates[j];
      if r.Some? then FirstPresentAfterMiss(candidates, present, r.value); r else r
  }

  /** Skipping an absent head keeps "first present" true of the rest. */
  lemma FirstPresentAfterMiss(candidates: seq<string>, present: string -> bool, x: string)
    requires candidates != [] && !present(candidates[0])
    requires IsFirstPresent(candidates[1..], present, x)
    ensures IsFirstPresent(candidates, present, x)
  {
    var k :| 0 <= k < |candidates[1..]| && candidates[1..][k] == x && present(x)
             && NoneBefore(candidates[1..], present, k);
    assert forall j :: 1 <= j < |candidates| ==> candidates[1..][j - 1] == candidates[j];
    assert candidates[k + 1] == x && NoneBefore(candidates, present, k + 1);
  }

  /** The first present candidate is the one at `i` when it is present and none before it is. */
  lemma FirstPresentAt(candidates: seq<string>, present: string -> bool, i: int)
    requires 0 <= i < |candidates| && present(candidates[i]) && NoneBefore(candidates, present, i)
    ensures FirstPresent(candidates, present) == Some(candidates[i])
  {
    var r := FirstPresent(candidates, present);
    var k :| 0 <= k < |candidates| && candidates[k] == r.value && present(r.value)
             && NoneBefore(candidates, present, k);
  }

  /** No candidate of a list of three is present exactly when none of the three is. */
  lemma NoneOfThree(a: string, b: string, c: string, present: string -> bool)
    ensures NoneBefore([a, b, c], present, 3) <==> !present(a) && !present(b) && !present(c)
  {
    var cs := [a, b, c];
    if !present(a) && !present(b) && !present(c) {
      forall j | 0 <= j < 3 ensures !present(cs[j]) {
        assert cs[j] == a || cs[j] == b || cs[j] == c;
      }
    }
    if NoneBefore(cs, present, 3) {
      assert !present(cs[0]) && !present(cs[1]) && !present(cs[2]);
    }
  }

  /** No candidate of a list of two is present exactly when neither is. */
  lemma NoneOfTwo(a: string, b: string, present: string -> bool)
    ensures NoneBefore([a, b], present, 2) <==> !present(a) && !present(b)
  {
    var cs := [a, b];
    if NoneBefore(cs, present, 2) {
      assert !present(cs[0]) && !present(cs[1]);
    }
  }
}
