// The audio greeting: a muted preload on mount, a clickable prompt that
// starts the anthem at full volume, and a stop timer per click that pauses
// the audio and hides the prompt. Earlier timers are never cancelled.
//
// Time is a natural number of milliseconds; a pending timer is its deadline.

module WelcomeAudio {
  import opened Browser

  /** The `setTimeout` delay of the stop timer, in milliseconds. */
  const StopDelay: nat := 120000

  /** What the component can observe of the `<audio>` element. */
  datatype Playback = Playback(volume: real, currentTime: real, playing: bool)

  /** The component's state: the prompt flag, the audio element (None while
      `audioRef.current` is null), the clock and the pending stop timers. */
  datatype Prompt = Prompt(showPlay: bool, audio: Option<Playback>, now: nat, timers: seq<nat>)

  /** A fresh `<audio>` element: full volume, at the start, paused. */
  const FreshAudio := Playback(1.0, 0.0, false)

  /** The first render: the prompt is visible and no timer is pending. */
  function Initial(audioPresent: bool, now: nat): (p: Prompt)
    ensures p.showPlay && p.timers == [] && p.now == now
    ensures p.audio.Some? <==> audioPresent
  {
    Prompt(true, if audioPresent then Some(FreshAudio) else None, now, [])
  }

  /** `audio.play()`: starts playback when the browser allows it; a rejected
      promise leaves the element as it was. */
  function Play(a: Playback, allowed: bool): Playback
  {
    a.(playing := a.playing || allowed)
  }

  /** The mount effect: volume 0, then a play attempt whose rejection is
      swallowed. */
  function OnMount(p: Prompt, allowed: bool): Prompt
  {
    match p.audio
    case None => p
    case Some(a) => p.(audio := Some(Play(a.(volume := 0.0), allowed)))
  }

  /** A click on the prompt (`handlePlay`). While the prompt is hidden there
      is nothing to click; without an audio element the handler does nothing. */
  function OnClick(p: Prompt, allowed: bool): Prompt
  {
    if !p.showPlay then p
    else match p.audio
      case None => p
      case Some(a) =>
        p.(audio := Some(Play(a.(volume := 1.0, currentTime := 0.0), allowed)),
           timers := p.timers + [p.now + StopDelay])
  }

  /** The deadlines in `timers` that are later than t, in their order. */
  function Pending(timers: seq<nat>, t: nat): (r: seq<nat>)
    ensures forall x :: x in r <==> x in timers && t < x
    ensures |r| <= |timers|
  {
    if timers == [] then []
    else if timers[0] <= t then Pending(timers[1..], t)
    else [timers[0]] + Pending(timers[1..], t)
  }

  /** When every deadline is at or before t, nothing stays pending. */
  lemma {:induction false} NonePending(timers: seq<nat>, t: nat)
    requires forall x :: x in timers ==> x <= t
    ensures Pending(timers, t) == []
  {
    if timers != [] {
      assert timers[0] in timers;
      assert forall x :: x in timers[1..] ==> x in timers;
      NonePending(timers[1..], t);
    }
  }

  /** Some deadline in `timers` is at or before t. */
  predicate AnyDue(timers: seq<nat>, t: nat)
  {
    exists k :: 0 <= k < |timers| && timers[k] <= t
  }

  /** `audio.pause()`. */
  function Pause(audio: Option<Playback>): Option<Playback>
  {
    match audio
    case None => None
    case Some(a) => Some(a.(playing := false))
  }

  /** d milliseconds pass; every timer due by then fires. Each fired callback
      pauses the audio and hides the prompt, so firing several is the same as
      firing one. */
  function OnTick(p: Prompt, d: nat): Prompt
  {
    var t := p.now + d;
    var q := p.(now := t, timers := Pending(p.timers, t));
    if AnyDue(p.timers, t) then q.(showPlay := false, audio := Pause(p.audio)) else q
  }

  /** One event: mount, a click, or time passing. */
  ghost predicate Step(p: Prompt, q: Prompt)
  {
    (exists allowed :: q == OnMount(p, allowed) || q == OnClick(p, allowed)) ||
    (exists d: nat :: q == OnTick(p, d))
  }

  /** Every pending timer is due within one delay from now, and timers exist
      only when there is an audio element to pause. */
  ghost predicate Valid(p: Prompt)
  {
    (forall x :: x in p.timers ==> p.now < x <= p.now + StopDelay) &&
    (p.timers != [] ==> p.audio.Some?)
  }

  /** A click on a visible prompt: full volume, from the start, playing if
      the browser allows it, and exactly one new timer one delay from now. */
  lemma ClickRestartsAndSchedules(p: Prompt, allowed: bool)
    requires p.showPlay && p.audio.Some?
    ensures var q := OnClick(p, allowed);
      q.audio.Some? && q.audio.value.volume == 1.0 && q.audio.value.currentTime == 0.0 &&
      q.audio.value.playing == (p.audio.value.playing || allowed) &&
      q.timers == p.timers + [p.now + StopDelay] && q.showPlay
  {
  }

  /** Without a visible prompt or without an audio element, a click changes
      nothing and schedules nothing. */
  lemma ClickWithoutTargetIgnored(p: Prompt, allowed: bool)
    requires !p.showPlay || p.audio.None?
    ensures OnClick(p, allowed) == p
  {
  }

  /** Mount keeps the prompt and the timers; it silences the audio. */
  lemma MountKeepsPrompt(p: Prompt, allowed: bool)
    ensures OnMount(p, allowed).showPlay == p.showPlay
    ensures OnMount(p, allowed).timers == p.timers
    ensures p.audio.Some? ==> OnMount(p, allowed).audio.value.volume == 0.0
  {
  }

  /** When a pending timer fires, the audio is paused and the prompt hidden. */
  lemma FiredTimerStops(p: Prompt, d: nat, x: nat)
    requires x in p.timers && x <= p.now + d
    ensures !OnTick(p, d).showPlay
    ensures OnTick(p, d).audio.Some? ==> !OnTick(p, d).audio.value.playing
    ensures x !in OnTick(p, d).timers
  {
    var k :| 0 <= k < |p.timers| && p.timers[k] == x;
    assert AnyDue(p.timers, p.now + d);
  }

  /** After one full delay with no click, every pending timer has fired: when
      any was pending, the audio is paused and the prompt hidden. */
  lemma StopsWithinDelay(p: Prompt)
    requires Valid(p)
    ensures OnTick(p, StopDelay).timers == []
    ensures p.timers != [] ==> !OnTick(p, StopDelay).showPlay && !OnTick(p, StopDelay).audio.value.playing
  {
    NonePending(p.timers, p.now + StopDelay);
    if p.timers != [] {
      assert p.timers[0] in p.timers;
      FiredTimerStops(p, StopDelay, p.timers[0]);
    }
  }

  /** The first render is valid, so the lemmas over runs apply from page load. */
  lemma InitialValid(audioPresent: bool, now: nat)
    ensures Valid(Initial(audioPresent, now))
  {
  }

  /** No event cancels a timer: a deadline still in the future after the
      event is still pending. */
  lemma TimerNotCancelled(p: Prompt, q: Prompt, x: nat)
    requires Step(p, q) && x in p.timers && q.now < x
    ensures x in q.timers
  {
  }

  /** Every event keeps `Valid`; once the prompt is hidden, no event shows it
      again or adds a timer. */
  lemma StepKeepsValid(p: Prompt, q: Prompt)
    requires Valid(p) && Step(p, q)
    ensures Valid(q)
    ensures !p.showPlay ==> !q.showPlay && |q.timers| <= |p.timers|
    ensures !p.showPlay ==> forall x :: x in q.timers ==> x in p.timers
  {
    if exists d: nat :: q == OnTick(p, d) {
      var d: nat :| q == OnTick(p, d);
      if q.timers != [] {
        assert q.timers[0] in p.timers;
      }
    }
  }

  /** Along any run of events the state stays valid, and once the prompt is
      hidden it stays hidden, the number of pending timers does not grow and
      every timer still pending was already pending when it was hidden. */
  lemma {:induction false} PromptNeverReturns(run: seq<Prompt>)
    requires |run| > 0 && Valid(run[0])
    requires forall k :: 0 <= k < |run| - 1 ==> Step(run[k], run[k + 1])
    ensures Valid(run[|run| - 1])
    ensures !run[0].showPlay ==> !run[|run| - 1].showPlay && |run[|run| - 1].timers| <= |run[0].timers|
    ensures !run[0].showPlay ==> forall x :: x in run[|run| - 1].timers ==> x in run[0].timers
  {
    if |run| > 1 {
      PromptNeverReturns(run[..|run| - 1]);
      StepKeepsValid(run[|run| - 2], run[|run| - 1]);
    }
  }

  /** Timers are not cancelled: clicking at t1 and again at t2, with
      t1 < t2 < t1 + StopDelay, restarts the anthem, yet at t1 + StopDelay the
      first timer pauses it and hides the prompt while the second is still
      pending. */
  lemma EarlierTimerCutsRestartedPlayback(p: Prompt, gap: nat)
    requires p.showPlay && p.audio.Some? && p.timers == []
    requires 0 < gap < StopDelay
    ensures var p1 := OnClick(p, true);
      var p2 := OnTick(p1, gap);
      var p3 := OnClick(p2, true);
      var p4 := OnTick(p3, StopDelay - gap);
      p3.audio.value.playing && p3.audio.value.currentTime == 0.0 &&
      p4.now == p.now + StopDelay &&
      !p4.showPlay && !p4.audio.value.playing &&
      p4.timers == [p.now + gap + StopDelay]
  {
    var t1 := p.now;
    var p1 := OnClick(p, true);
    assert p1.timers == [t1 + StopDelay];
    var p2 := OnTick(p1, gap);
    assert p2.timers == [t1 + StopDelay];
    assert !AnyDue(p1.timers, t1 + gap);
    var p3 := OnClick(p2, true);
    assert p3.timers == [t1 + StopDelay, t1 + gap + StopDelay];
    assert p3.timers[0] <= t1 + StopDelay;
    assert AnyDue(p3.timers, t1 + StopDelay);
    assert Pending(p3.timers, t1 + StopDelay) == [t1 + gap + StopDelay];
  }

  /** The `<audio>` element: the browser object the component mutates. */
  class AudioElement {
    var volume: real
    var currentTime: real
    var playing: bool

    function View(): Playback
      reads this
    {
      Playback(volume, currentTime, playing)
    }

    constructor ()
      ensures View() == FreshAudio
    {
      volume, currentTime, playing := 1.0, 0.0, false;
    }
  }

  /** The mounted component. */
  class WelcomeAudioComponent {
    var audioRef: AudioElement?
    var showPlay: bool
    var now: nat
    var timers: seq<nat>

    function State(): Prompt
      reads this, audioRef
    {
      Prompt(showPlay, if audioRef == null then None else Some(audioRef.View()), now, timers)
    }

    /** `useState(true)`: the prompt starts visible. */
    constructor (audio: AudioElement?, start: nat)
      requires audio != null ==> audio.View() == FreshAudio
      ensures audioRef == audio
      ensures State() == Initial(audio != null, start)
    {
      audioRef, showPlay, now, timers := audio, true, start, [];
    }

    /** The mount effect. */
    method Mount(allowed: bool)
      modifies audioRef
      ensures State() == OnMount(old(State()), allowed)
    {
      var audio := audioRef;
      if audio != null {
        audio.volume := 0.0;
        audio.playing := audio.playing || allowed;
      }
    }

    /** `handlePlay`, reachable only while the prompt is rendered. */
    method Click(allowed: bool)
      modifies this, audioRef
      ensures audioRef == old(audioRef)
      ensures State() == OnClick(old(State()), allowed)
    {
      if !showPlay {
        return;
      }
      var audio := audioRef;
      if audio != null {
        audio.volume := 1.0;
        audio.currentTime := 0.0;
        audio.playing := audio.playing || allowed;
        timers := timers + [now + StopDelay];
      }
    }

    /** The clock advances by d; each due timer's callback pauses the audio
        and hides the prompt. */
    method Tick(d: nat)
      modifies this, audioRef
      ensures audioRef == old(audioRef)
      ensures State() == OnTick(old(State()), d)
    {
      var fired := AnyDue(timers, now + d);
      now := now + d;
      timers := Pending(timers, now);
      if fired {
        var audio := audioRef;
        if audio != null {
          audio.playing := false;
        }
        showPlay := false;
      }
    }
  }
}
