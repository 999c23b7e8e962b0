/** The parts of a magmastream `Track` that the bot reads or writes. */
module Tracks {

  /**
   * A resolved track. `duration` is in milliseconds; `requester` is the user who
   * asked for it, or the autoplay marker for tracks the bot added itself.
   */
  datatype Track = Track(
    identifier: string,
    title: string,
    author: string,
    duration: nat,
    uri: string,
    isStream: bool,
    isSeekable: bool,
    requester: string)

  /** The requester written on every track autoplay adds (src/utils/music/autoplay.ts:224). */
  const AutoplayRequester: string := "자동재생"

  /** The sum of the tracks' durations. */
  function TotalDuration(tracks: seq<Track>): nat
  {
    if tracks == [] then 0 else TotalDuration(tracks[..|tracks| - 1]) + tracks[|tracks| - 1].duration
  }

  lemma {:induction false} TotalDurationAppend(xs: seq<Track>, ys: seq<Track>)
    ensures TotalDuration(xs + ys) == TotalDuration(xs) + TotalDuration(ys)
    decreases |ys|
  {
    if ys != [] {
      var zs := xs + ys;
      assert zs[..|zs| - 1] == xs + ys[..|ys| - 1];
      assert zs[|zs| - 1] == ys[|ys| - 1];
      TotalDurationAppend(xs, ys[..|ys| - 1]);
      assert TotalDuration(zs) == TotalDuration(xs + ys[..|ys| - 1]) + ys[|ys| - 1].duration;
    } else {
      assert xs + ys == xs;
    }
  }
}
