/**
 * The lifetime of an on-screen text (library/text.c): a duration that counts
 * down on every tick and a sticky removal flag. A duration of INFINITY is
 * `Forever`. The SDL texture, the string and its placement are not part of
 * this model; a tick reports whether it renders the text.
 */
module Texts {
  datatype Duration = Finite(seconds: real) | Forever

  /**
   * The duration after one tick of dt: a finite duration drops by dt and is
   * clamped at zero, INFINITY is kept. Both the kind of duration and a
   * non-negative finite duration are preserved.
   */
  function Countdown(d: Duration, dt: real): (r: Duration)
    ensures d.Forever? <==> r.Forever?
    ensures r.Finite? ==> r.seconds >= 0.0
    ensures d.Finite? && d.seconds - dt > 0.0 ==> r == Finite(d.seconds - dt)
    ensures d.Finite? && d.seconds - dt <= 0.0 ==> r == Finite(0.0)
  {
    if d.Forever? then Forever
    else if d.seconds - dt <= 0.0 then Finite(0.0)
    else Finite(d.seconds - dt)
  }

  /** Whether a tick of dt runs the duration out. */
  predicate Expires(d: Duration, dt: real)
  {
    d.Finite? && d.seconds - dt <= 0.0
  }

  /** What the kernel tracks of a text: its duration and its removal flag. */
  datatype TextState = TextState(duration: Duration, removed: bool)

  /**
   * A text after the text pass of a scene tick: a live text ticks and is
   * removed exactly when its duration runs out; a removed text is skipped.
   */
  function TextTicked(t: TextState, dt: real): (r: TextState)
    ensures t.removed ==> r == t
    ensures !t.removed ==> r.duration == Countdown(t.duration, dt) && (r.removed <==> Expires(t.duration, dt))
  {
    if t.removed then t else TextState(Countdown(t.duration, dt), Expires(t.duration, dt))
  }

  /** The states of a list of texts after the text pass. */
  function TextsTicked(ss: seq<TextState>, dt: real): (r: seq<TextState>)
    ensures |r| == |ss| && forall k :: 0 <= k < |ss| ==> r[k] == TextTicked(ss[k], dt)
  {
    if ss == [] then [] else TextsTicked(ss[..|ss| - 1], dt) + [TextTicked(ss[|ss| - 1], dt)]
  }

  class Text {
    var duration: Duration
    var removed: bool

    ghost function State(): TextState
      reads this
    {
      TextState(duration, removed)
    }

    /** text_init, without the texture: the text starts live with the given duration. */
    constructor Init(duration: Duration)
      ensures this.duration == duration && !removed
    {
      this.duration := duration;
      removed := false;
    }

    /** text_remove: a live text is removed and its duration set to zero; a removed one is left as it is. */
    method Remove()
      modifies this
      ensures removed
      ensures duration == if old(removed) then old(duration) else Finite(0.0)
    {
      if !removed {
        removed := true;
        duration := Finite(0.0);
      }
    }

    /**
     * text_tick: the duration counts down; when a finite duration runs out
     * the text is removed. The text renders iff it is live afterwards.
     */
    method Tick(dt: real) returns (rendered: bool)
      modifies this
      ensures duration == Countdown(old(duration), dt)
      ensures removed == (old(removed) || Expires(old(duration), dt))
      ensures rendered == !removed
    {
      if duration != Forever {
        duration := Finite(duration.seconds - dt);
        if duration.seconds <= 0.0 {
          duration := Finite(0.0);
          Remove();
        }
      }
      rendered := !removed;
    }
  }

  /** The durations a text runs through over a series of ticks. */
  function Countdowns(d: Duration, dts: seq<real>): (r: Duration)
    ensures d.Forever? ==> r.Forever?
    decreases |dts|
  {
    if dts == [] then d else Countdowns(Countdown(d, dts[0]), dts[1..])
  }

  /** The sum of a series of tick lengths. */
  function Total(dts: seq<real>): (t: real)
    ensures (forall i :: 0 <= i < |dts| ==> dts[i] >= 0.0) ==> t >= 0.0
  {
    if dts == [] then 0.0 else dts[0] + Total(dts[1..])
  }

  /**
   * Over ticks of non-negative length, a finite duration counts down by the
   * total time elapsed, clamped at zero: the text expires once the total
   * reaches the duration, whatever the steps.
   */
  lemma {:induction false} CountdownsTotal(s: real, dts: seq<real>)
    requires s >= 0.0
    requires forall i :: 0 <= i < |dts| ==> dts[i] >= 0.0
    ensures Countdowns(Finite(s), dts) == if s - Total(dts) <= 0.0 then Finite(0.0) else Finite(s - Total(dts))
    decreases |dts|
  {
    if dts != [] {
      var next := Countdown(Finite(s), dts[0]);
      CountdownsTotal(next.seconds, dts[1..]);
      assert forall i :: 0 <= i < |dts[1..]| ==> dts[1..][i] >= 0.0;
    }
  }
}
