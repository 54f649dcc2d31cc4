/** The roster preview under the form: the first 15 mnemonics in order, a `...`
    item when there are more, and a header that reports the total count. */
module Roster {

  const PreviewLimit: nat := 15

  /** What the preview renders: the entries listed, whether the `...` item is
      shown, and the count in the header. */
  datatype Preview = Preview(shown: seq<string>, truncated: bool, count: nat)

  function Min(a: nat, b: nat): nat {
    if a <= b then a else b
  }

  /** The preview of a roster. */
  function PreviewOf(roster: seq<string>): (p: Preview)
    ensures |p.shown| == Min(PreviewLimit, |roster|)
    ensures p.shown <= roster
    ensures p.truncated <==> |roster| > PreviewLimit
    ensures p.count == |roster|
  {
    Preview(roster[..Min(PreviewLimit, |roster|)], |roster| > PreviewLimit, |roster|)
  }

  /** Without the `...` item the preview lists the whole roster; with it, exactly
      the entries from the 16th on are hidden, and there is at least one. */
  lemma PreviewHidesOnlyTheTail(roster: seq<string>)
    ensures var p := PreviewOf(roster);
      roster == p.shown + roster[|p.shown|..] &&
      (!p.truncated <==> p.shown == roster) &&
      (p.truncated ==> |p.shown| == PreviewLimit && |roster[|p.shown|..]| == p.count - PreviewLimit)
  {
  }

  /** An 18-entry roster shows its first 15 entries, the `...` item and a count of 18. */
  lemma EighteenEntries(roster: seq<string>)
    requires |roster| == 18
    ensures PreviewOf(roster) == Preview(roster[..15], true, 18)
  {
  }
}
