/**
 * The sound switch of "Planets 2" (src/experiments/07-planets2.js, the
 * module-level audioControl, audioStarted and isMuted, and toggleMuted).
 * The synthesiser behind audioControl is not modelled: its start() and
 * setMuted(m) calls are recorded, in order, as AudioCall values.
 */
module Planets2Audio {

  datatype AudioCall = Start | SetMuted(muted: bool)

  /** The module-level flags, with the calls made so far on audioControl. */
  datatype SoundState = SoundState(hasControl: bool, audioStarted: bool, isMuted: bool, calls: seq<AudioCall>)

  /** Before setup has installed audioControl: not started, muted, no calls. */
  const Initial := SoundState(false, false, true, [])

  /**
   * toggleMuted: nothing without audioControl; the first effective call
   * starts the audio and unmutes; every later call flips isMuted and passes
   * the new value to setMuted.
   */
  function Toggle(s: SoundState): (r: SoundState)
    ensures r.hasControl == s.hasControl
    ensures s.audioStarted ==> r.audioStarted
    ensures |r.calls| == |s.calls| + (if s.hasControl then 1 else 0) && r.calls[..|s.calls|] == s.calls
  {
    if !s.hasControl then s
    else if !s.audioStarted then s.(audioStarted := true, isMuted := false, calls := s.calls + [Start])
    else s.(isMuted := !s.isMuted, calls := s.calls + [SetMuted(!s.isMuted)])
  }

  /** n successive calls of toggleMuted. */
  function ToggleTimes(s: SoundState, n: nat): (r: SoundState)
    ensures r.hasControl == s.hasControl
    ensures |r.calls| == |s.calls| + (if s.hasControl then n else 0)
  {
    if n == 0 then s else Toggle(ToggleTimes(s, n - 1))
  }

  /** How often start() was called. */
  function StartCount(calls: seq<AudioCall>): nat
  {
    if calls == [] then 0 else (if calls[0] == Start then 1 else 0) + StartCount(calls[1..])
  }

  /**
   * After n >= 1 clicks on a sketch whose audioControl is installed, the
   * audio has started, start() was called exactly once and first, the k-th
   * later call was setMuted(k is odd), and the sketch is muted exactly when
   * n is even.
   */
  lemma {:induction false} ToggleHistory(n: nat)
    requires 1 <= n
    ensures var s := ToggleTimes(Initial.(hasControl := true), n);
      && s.audioStarted
      && |s.calls| == n
      && s.calls[0] == Start
      && (forall k :: 1 <= k < n ==> s.calls[k] == SetMuted(k % 2 == 1))
      && StartCount(s.calls) == 1
      && s.isMuted == (n % 2 == 0)
  {
    var s0 := Initial.(hasControl := true);
    if n == 1 {
      assert ToggleTimes(s0, 1) == Toggle(s0);
      assert Toggle(s0).calls == [Start];
      assert [Start][1..] == [];
    } else {
      ToggleHistory(n - 1);
      var prev := ToggleTimes(s0, n - 1);
      var s := Toggle(prev);
      assert s.calls == prev.calls + [SetMuted(!prev.isMuted)];
      StartCountAppend(prev.calls, [SetMuted(!prev.isMuted)]);
      assert [SetMuted(!prev.isMuted)][1..] == [];
    }
  }

  lemma {:induction false} StartCountAppend(xs: seq<AudioCall>, ys: seq<AudioCall>)
    ensures StartCount(xs + ys) == StartCount(xs) + StartCount(ys)
  {
    if xs == [] {
      assert xs + ys == ys;
    } else {
      assert (xs + ys)[1..] == xs[1..] + ys;
      StartCountAppend(xs[1..], ys);
    }
  }

  /** Without audioControl no number of clicks does anything. */
  lemma {:induction false} ToggleWithoutControl(s: SoundState, n: nat)
    requires !s.hasControl
    ensures ToggleTimes(s, n) == s
  {
    if n > 0 { ToggleWithoutControl(s, n - 1); }
  }

  /** The module's flags, updated in place by toggleMuted. */
  class Sound {
    var hasControl: bool
    var audioStarted: bool
    var isMuted: bool
    var calls: seq<AudioCall>

    function State(): SoundState
      reads this
    {
      SoundState(hasControl, audioStarted, isMuted, calls)
    }

    constructor ()
      ensures State() == Initial
    {
      hasControl, audioStarted, isMuted, calls := false, false, true, [];
    }

    /** setup's assignment of audioControl. */
    method InstallControl()
      modifies this`hasControl
      ensures State() == old(State()).(hasControl := true)
    {
      hasControl := true;
    }

    method ToggleMuted()
      modifies this
      ensures State() == Toggle(old(State()))
    {
      if !hasControl { return; }
      if !audioStarted {
        calls := calls + [Start];
        audioStarted := true;
        isMuted := false;
      } else {
        isMuted := !isMuted;
        calls := calls + [SetMuted(isMuted)];
      }
    }
  }
}
