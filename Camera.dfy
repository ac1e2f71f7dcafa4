/**
 * The camera state machine, the message handler and the polling loop.
 *
 * The agent keeps two pieces of state: whether monitoring is active and the
 * size of the last periodic capture (the baseline). Commands turn monitoring
 * on and off; every few seconds the loop, when monitoring is active, takes a
 * picture and analyses it if its size changed enough since the previous one.
 * Picture sizes are inputs; the upload and the analysis cascade are reported
 * as an `Analyse` effect (the cascade itself is AnalysisPipeline.AnalyseImage).
 */
module Camera {
  import ChangeDetector
  import CommandRouter

  /** The value of the camera state. */
  datatype Cam = Cam(active: bool, size: nat)

  /** The state at start-up: monitoring off, no baseline. */
  const Initial := Cam(false, 0)

  /**
   * What drives the agent, in the order it happens: a tick of the polling
   * loop (with the size the capture would have), or an inbound command.
   */
  datatype Event = Poll(capture: nat) | Message(payload: CommandRouter.Payload)

  /** What one event makes the agent do besides changing its state. */
  datatype Effect =
    | Quiet                 // nothing beyond logging (and possibly a capture)
    | Analyse               // upload the capture and run the analysis cascade
    | IndexFace(name: string)  // capture, upload and enrol the face under `name`
    | Raise                 // the handler raised: an `index` value that is not a string

  datatype After = After(cam: Cam, effect: Effect)

  /** Whether `e` is the command that routes to `a`. */
  predicate IsCommand(e: Event, a: CommandRouter.Action)
  {
    e.Message? && CommandRouter.Route(e.payload) == a
  }

  /**
   * One event. A poll does something only while monitoring is active: it
   * stores the capture size as the new baseline and analyses when the change
   * against the old baseline triggers. A command acts as it is routed.
   */
  function Step(c: Cam, e: Event): (r: After)
    ensures r.effect == Analyse <==>
      (e.Poll? && c.active && ChangeDetector.Triggers(c.size, e.capture)) || IsCommand(e, CommandRouter.UseOnce)
    ensures r.effect.IndexFace? <==> e.Message? && CommandRouter.Route(e.payload).Index?
    ensures r.effect.IndexFace? ==> r.effect.name == CommandRouter.Route(e.payload).name
    ensures r.effect == Raise <==> IsCommand(e, CommandRouter.BadIndex)
    ensures r.cam.active <==> IsCommand(e, CommandRouter.Enable) || (c.active && !IsCommand(e, CommandRouter.Disable))
    ensures r.cam.size == (if e.Poll? && c.active then e.capture
                           else if IsCommand(e, CommandRouter.Enable) then 0
                           else c.size)
  {
    match e
    case Poll(capture) =>
      if c.active then
        After(Cam(true, capture), if ChangeDetector.Triggers(c.size, capture) then Analyse else Quiet)
      else
        After(c, Quiet)
    case Message(payload) =>
      match CommandRouter.Route(payload)
      case Enable => After(Cam(true, 0), Quiet)
      case Disable => After(Cam(false, c.size), Quiet)
      case UseOnce => After(c, Analyse)
      case Index(name) => After(c, IndexFace(name))
      case BadIndex => After(c, Raise)
      case UnknownCamera(_) => After(c, Quiet)
      case Unknown => After(c, Quiet)
  }

  datatype Run = Run(final: Cam, effects: seq<Effect>)

  /** A sequence of events handled one after the other: the final state and one effect per event. */
  function Trace(c: Cam, events: seq<Event>): (r: Run)
    ensures |r.effects| == |events|
  {
    if events == [] then Run(c, [])
    else
      var before := Trace(c, events[..|events| - 1]);
      var after := Step(before.final, events[|events| - 1]);
      Run(after.cam, before.effects + [after.effect])
  }

  /** Handling a prefix of the events gives a prefix of the effects. */
  lemma {:induction false} TracePrefix(c: Cam, events: seq<Event>, k: nat)
    requires k <= |events|
    ensures Trace(c, events[..k]).effects == Trace(c, events).effects[..k]
    decreases |events|
  {
    if k < |events| {
      var init := events[..|events| - 1];
      assert init[..k] == events[..k];
      TracePrefix(c, init, k);
    } else {
      assert events[..k] == events;
    }
  }

  /** The effect of the i-th event is that of a step from the state the earlier events left. */
  lemma EffectAt(c: Cam, events: seq<Event>, i: nat)
    requires i < |events|
    ensures var a := Step(Trace(c, events[..i]).final, events[i]);
      Trace(c, events).effects[i] == a.effect && Trace(c, events[..i + 1]).final == a.cam
  {
    TracePrefix(c, events, i + 1);
    assert events[..i + 1][..i] == events[..i];
  }

  /**
   * As long as no enable command arrives, a disabled camera stays disabled
   * and keeps its baseline, and the only analyses are the one-shot ones.
   * In particular, from start-up polling does nothing until the camera is
   * enabled.
   */
  lemma {:induction false} NothingUntilEnabled(c: Cam, events: seq<Event>)
    requires !c.active
    requires forall i :: 0 <= i < |events| ==> !IsCommand(events[i], CommandRouter.Enable)
    ensures Trace(c, events).final == c
    ensures forall i :: 0 <= i < |events| && Trace(c, events).effects[i] == Analyse ==>
      IsCommand(events[i], CommandRouter.UseOnce)
  {
    if events != [] {
      var init := events[..|events| - 1];
      NothingUntilEnabled(c, init);
    }
  }

  /** From start-up, polls alone never analyse and leave the state as it was. */
  lemma PollsAloneDoNothing(events: seq<Event>)
    requires forall i :: 0 <= i < |events| ==> events[i].Poll?
    ensures Trace(Initial, events).final == Initial
    ensures forall i :: 0 <= i < |events| ==> Trace(Initial, events).effects[i] != Analyse
  {
    NothingUntilEnabled(Initial, events);
  }

  /** A poll analyses only with an active camera and a baseline that its capture moved away from. */
  lemma PollAnalysesOnlyWithBaseline(c: Cam, events: seq<Event>, i: nat)
    requires i < |events| && events[i].Poll?
    requires Trace(c, events).effects[i] == Analyse
    ensures var before := Trace(c, events[..i]).final;
      before.active && before.size > 0 && before.size != events[i].capture
  {
    EffectAt(c, events, i);
  }

  /** A command message never changes the baseline except for enable, which resets it to 0. */
  lemma {:induction false} MessagesKeepZeroBaseline(c: Cam, events: seq<Event>)
    requires c.size == 0
    requires forall i :: 0 <= i < |events| ==> events[i].Message?
    ensures Trace(c, events).final.size == 0
  {
    if events != [] {
      MessagesKeepZeroBaseline(c, events[..|events| - 1]);
    }
  }

  /**
   * The first poll after an enable command never analyses, whatever the
   * capture size and whatever other commands came in between: enabling
   * resets the baseline to 0 and a poll without a baseline never triggers.
   */
  lemma FirstPollAfterEnableIsQuiet(c: Cam, events: seq<Event>, i: nat, j: nat)
    requires i < j < |events|
    requires IsCommand(events[i], CommandRouter.Enable)
    requires events[j].Poll?
    requires forall k :: i < k < j ==> events[k].Message?
    ensures Trace(c, events).effects[j] == Quiet
  {
    EffectAt(c, events, i);
    EffectAt(c, events, j);
    var after := Trace(c, events[..i + 1]).final;
    assert after.size == 0;
    var between := events[i + 1..j];
    assert forall k :: 0 <= k < |between| ==> between[k].Message?;
    MessagesKeepZeroBaseline(after, between);
    TraceAppend(c, events[..i + 1], between);
    assert events[..i + 1] + between == events[..j];
  }

  /** Handling two batches of events one after the other is handling their concatenation. */
  lemma {:induction false} TraceAppend(c: Cam, first: seq<Event>, second: seq<Event>)
    ensures Trace(c, first + second).final == Trace(Trace(c, first).final, second).final
    ensures Trace(c, first + second).effects == Trace(c, first).effects + Trace(Trace(c, first).final, second).effects
    decreases |second|
  {
    if second == [] {
      assert first + second == first;
    } else {
      var init := second[..|second| - 1];
      assert (first + second)[..|first + second| - 1] == first + init;
      TraceAppend(c, first, init);
    }
  }

  /**
   * A one-shot command always analyses and changes neither the flag nor the
   * baseline, whatever the state; an unrecognised command changes nothing.
   */
  lemma CommandsWithoutStateChange(c: Cam, events: seq<Event>, i: nat)
    requires i < |events| && events[i].Message?
    requires !CommandRouter.ChangesState(CommandRouter.Route(events[i].payload))
    ensures Trace(c, events[..i + 1]).final == Trace(c, events[..i]).final
    ensures IsCommand(events[i], CommandRouter.UseOnce) ==> Trace(c, events).effects[i] == Analyse
    ensures (CommandRouter.Route(events[i].payload).Unknown? || CommandRouter.Route(events[i].payload).UnknownCamera?)
      ==> Trace(c, events).effects[i] == Quiet
  {
    EffectAt(c, events, i);
  }

  /** The camera state the polling function keeps between calls. */
  class CameraState {
    var active: bool
    var size: nat

    function Model(): Cam
      reads this
    {
      Cam(active, size)
    }

    /** Start-up: monitoring off; no baseline has been recorded yet. */
    constructor ()
      ensures Model() == Initial
    {
      active := false;
      size := 0;
    }

    /** The `enable` command: monitoring on and the baseline forgotten. */
    method Enable()
      modifies this
      ensures active && size == 0
    {
      size := 0;
      active := true;
    }

    /** The `disable` command: monitoring off; the baseline is kept. */
    method Disable()
      modifies this
      ensures !active && size == old(size)
    {
      active := false;
    }

    /**
     * Use the camera on a capture of size `capture`. A periodic use stores
     * the capture size as the new baseline and reports whether the change
     * against the old one is above the threshold; a one-shot use leaves the
     * baseline alone and always reports that the capture is to be analysed.
     */
    method Use(capture: nat, once: bool) returns (analyse: bool)
      modifies this
      ensures active == old(active)
      ensures size == if once then old(size) else capture
      ensures analyse <==> once || ChangeDetector.Triggers(old(size), capture)
    {
      var change: real := 0.0;
      if !once {
        var previous := size;
        size := capture;
        change := ChangeDetector.SizeChange(previous, size);
      }
      analyse := once || change > ChangeDetector.ChangeThreshold;
    }

    /** One tick of the polling loop: use the camera only while monitoring is active. */
    method Tick(capture: nat) returns (effect: Effect)
      modifies this
      ensures Model() == Step(old(Model()), Event.Poll(capture)).cam
      ensures effect == Step(old(Model()), Event.Poll(capture)).effect
    {
      effect := Quiet;
      if active {
        var analyse := Use(capture, false);
        if analyse {
          effect := Analyse;
        }
      }
    }

    /** An inbound command message, dispatched as the router decides. */
    method Handle(payload: CommandRouter.Payload) returns (effect: Effect)
      modifies this
      ensures Model() == Step(old(Model()), Message(payload)).cam
      ensures effect == Step(old(Model()), Message(payload)).effect
    {
      effect := Quiet;
      match CommandRouter.Route(payload)
      case Enable =>
        Enable();
      case Disable =>
        Disable();
      case UseOnce =>
        // a one-shot use does not look at the capture size
        var analyse := Use(0, true);
        if analyse {
          effect := Analyse;
        }
      case Index(name) =>
        effect := IndexFace(name);
      case BadIndex =>
        effect := Raise;
      case UnknownCamera(_) =>
      case Unknown =>
    }

    /** The agent's life: polls and commands handled one at a time, in arrival order. */
    method Serve(events: seq<Event>) returns (effects: seq<Effect>)
      modifies this
      ensures Model() == Trace(old(Model()), events).final
      ensures effects == Trace(old(Model()), events).effects
    {
      ghost var start := Model();
      effects := [];
      for i := 0 to |events|
        invariant Model() == Trace(start, events[..i]).final
        invariant effects == Trace(start, events[..i]).effects
      {
        assert events[..i + 1][..i] == events[..i];
        var effect;
        match events[i] {
          case Poll(capture) =>
            effect := Tick(capture);
          case Message(payload) =>
            effect := Handle(payload);
        }
        effects := effects + [effect];
      }
      assert events[..|events|] == events;
    }
  }
}
