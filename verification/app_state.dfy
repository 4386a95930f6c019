/**
 * The state behind the table view of src/app/state.rs: a tick counter, the
 * console of messages shown to the user, and the diff on display. The tick
 * counter is an unsigned 64-bit integer; overflowing it panics in a debug
 * build, which the precondition of `IncrTick` rules out.
 */
module AppStates {
  import opened Wrappers
  import opened DiffLines

  const U64_MAX: int := 0xffff_ffff_ffff_ffff

  type U64 = n: int | 0 <= n <= U64_MAX

  class AppState {
    var counterTick: U64
    var console: seq<string>
    const diff: Diff

    /** A fresh state: no ticks yet, an empty console, and the given diff. */
    constructor (diff: Diff)
      ensures counterTick == 0 && console == [] && this.diff == diff
    {
      counterTick := 0;
      console := [];
      this.diff := diff;
    }

    method IncrTick()
      requires counterTick < U64_MAX
      modifies this
      ensures counterTick == old(counterTick) + 1 && console == old(console)
    {
      counterTick := counterTick + 1;
    }

    /** The tick count; always present. */
    function CountTick(): (r: Option<U64>)
      reads this
      ensures r.Some? && r.value == counterTick
    {
      Some(counterTick)
    }

    /** The console lines; always present. */
    function Console(): (r: Option<seq<string>>)
      reads this
      ensures r.Some? && r.value == console
    {
      Some(console)
    }

    /** The diff on display; always present. */
    function DiffShown(): (r: Option<Diff>)
      ensures r.Some? && r.value == diff
    {
      Some(diff)
    }

    /** Adds a line at the end of the console, keeping the earlier lines. */
    method SendToConsole(content: string)
      modifies this
      ensures console == old(console) + [content] && counterTick == old(counterTick)
      ensures |console| == |old(console)| + 1 && console[..|old(console)|] == old(console)
    {
      console := console + [content];
    }
  }
}
