/** The traffic icons: the tick loop that repaints an icon only when its colour
    flips, against the rule that says what colour it has at every instant.
    Times are milliseconds; timers are exact. */
module IoBlink {
  import opened Basics

  const IO_SHOW_MS: nat := 1000
  const IO_STEP_MS: nat := 250

  datatype IoChannel = KeyService | Keyboard

  /** One showing of traffic. */
  datatype IoShow = IoShow(start: nat, end: nat)

  function NextShow(was: Option<IoShow>, at: nat): IoShow {
    if was.Some? && at < was.value.end then IoShow(was.value.start, at + IO_SHOW_MS) else IoShow(at, at + IO_SHOW_MS)
  }

  predicate IoPurple(show: Option<IoShow>, now: nat, solid: bool) {
    show.Some? && show.value.start <= now < show.value.end
    && (solid || ((now - show.value.start) / IO_STEP_MS) % 2 == 0)
  }

  /** What the effect keeps: the showing, when its pending timer is due, and the colour last set. */
  datatype Icon = Icon(show: Option<IoShow>, timer: Option<nat>, purple: bool)

  function Min(a: nat, b: nat): nat {
    if a <= b then a else b
  }

  function TickStep(icon: Icon, now: nat, solid: bool): Icon
    requires icon.show.Some? ==> icon.show.value.start <= now
  {
    var purple := IoPurple(icon.show, now, solid);
    if icon.show.None? || now >= icon.show.value.end then Icon(None, None, purple)
    else
      var show := icon.show.value;
      var nextStep := IO_STEP_MS - (now - show.start) % IO_STEP_MS;
      var wait := if solid then show.end - now else Min(nextStep, show.end - now);
      Icon(icon.show, Some(now + wait), purple)
  }

  function PulseStep(icon: Icon, at: nat, solid: bool): Icon
    requires icon.show.Some? ==> icon.show.value.start <= at
  {
    var next := icon.(show := Some(NextShow(icon.show, at)));
    if icon.timer.None? then TickStep(next, at, solid) else next
  }

  class IoIcon {
    var show: Option<IoShow>
    var timer: Option<nat>
    var purple: bool
    const solid: bool
    const watched: set<IoChannel>

    constructor (solid: bool, watched: set<IoChannel>)
      ensures State() == START && this.solid == solid && this.watched == watched
    {
      show, timer, purple := None, None, false;
      this.solid, this.watched := solid, watched;
    }

    function State(): Icon
      reads this
    {
      Icon(show, timer, purple)
    }

    /** The timer's callback, also called outright by a pulse that finds no timer pending. */
    method Tick(now: nat)
      requires show.Some? ==> show.value.start <= now
      modifies this
      ensures State() == TickStep(old(State()), now, solid)
    {
      timer := None;
      purple := IoPurple(show, now, solid);
      if show.None? || now >= show.value.end {
        show := None;
        return;
      }
      var nextStep := IO_STEP_MS - (now - show.value.start) % IO_STEP_MS;
      timer := Some(now + if solid then show.value.end - now else Min(nextStep, show.value.end - now));
    }

    method OnIo(c: IoChannel, at: nat)
      requires show.Some? ==> show.value.start <= at
      modifies this
      ensures State() == if c in watched then PulseStep(old(State()), at, solid) else old(State())
    {
      if c !in watched { return; }
      show := Some(NextShow(show, at));
      if timer.None? { Tick(at); }
    }
  }

  const START := Icon(None, None, false)

  // ---------------------------------------------------------------- runs

  datatype Event = Pulse(channel: IoChannel, at: nat) | Fire(at: nat)

  datatype Effect = Effect(solid: bool, watched: set<IoChannel>) {

    ghost function LastTime(events: seq<Event>): nat {
      if events == [] then 0 else events[|events| - 1].at
    }

    /** The showing the rule speaks of: nextShow folded over the watched pulses. */
    ghost function Folded(events: seq<Event>): Option<IoShow> {
      if events == [] then None
      else
        var was, e := Folded(events[..|events| - 1]), events[|events| - 1];
        if e.Pulse? && e.channel in watched then Some(NextShow(was, e.at)) else was
    }

    ghost function LastPulse(events: seq<Event>): Option<nat> {
      if events == [] then None
      else
        var e := events[|events| - 1];
        if e.Pulse? && e.channel in watched then Some(e.at) else LastPulse(events[..|events| - 1])
    }

    ghost predicate CanHappen(icon: Icon, e: Event, last: nat) {
      && last <= e.at
      && (icon.timer.Some? ==> e.at <= icon.timer.value)
      && (e.Fire? ==> icon.timer == Some(e.at))
      && (icon.show.Some? ==> icon.show.value.start <= e.at)
    }

    ghost function Next(icon: Icon, e: Event, last: nat): Icon
      requires CanHappen(icon, e, last)
    {
      match e
      case Fire(at) => TickStep(icon, at, solid)
      case Pulse(c, at) => if c in watched then PulseStep(icon, at, solid) else icon
    }

    /** A run in time order in which a timer fires exactly when due; pulses and timers at one instant come in any order. */
    ghost predicate Run(events: seq<Event>, icon: Icon)
      decreases |events|
    {
      if events == [] then icon == START
      else
        var init, e := events[..|events| - 1], events[|events| - 1];
        exists was: Icon :: Run(init, was) && CanHappen(was, e, LastTime(init)) && icon == Next(was, e, LastTime(init))
    }

    /** Nothing due by t is still waiting. */
    ghost predicate Settled(events: seq<Event>, icon: Icon, t: nat) {
      LastTime(events) <= t && (icon.timer.Some? ==> t < icon.timer.value)
    }

    /** The colour set holds until the pending timer, whose showing is the folded one. */
    ghost predicate Agrees(show: Option<IoShow>, icon: Icon, last: nat) {
      && (icon.timer.Some? <==> icon.show.Some?)
      && (icon.show.Some? ==>
            && icon.show == show && show.value.start <= last <= icon.timer.value <= show.value.end <= last + IO_SHOW_MS
            && forall t: nat :: last <= t < icon.timer.value ==> IoPurple(show, t, solid) == icon.purple)
      && (icon.show.None? ==> !icon.purple && (show.Some? ==> show.value.end <= last))
    }

    lemma TickAgrees(icon: Icon, now: nat)
      requires icon.show.Some? && icon.show.value.start <= now <= icon.show.value.end <= now + IO_SHOW_MS
      ensures Agrees(icon.show, TickStep(icon, now, solid), now)
    {
    }

    lemma StepAgrees(show: Option<IoShow>, icon: Icon, e: Event, last: nat)
      requires Agrees(show, icon, last) && CanHappen(icon, e, last)
      ensures var show' := if e.Pulse? && e.channel in watched then Some(NextShow(show, e.at)) else show;
              Agrees(show', Next(icon, e, last), e.at)
    {
      if e.Fire? {
        TickAgrees(icon, e.at);
      } else if e.channel in watched && icon.timer.None? {
        TickAgrees(icon.(show := Some(NextShow(icon.show, e.at))), e.at);
      } else if e.channel in watched {
        ExtendingKeepsColour(show, icon, e.at, last);
      }
    }

    /** More traffic moves the end of a showing, never the colour before the pending timer. */
    lemma ExtendingKeepsColour(show: Option<IoShow>, icon: Icon, at: nat, last: nat)
      requires Agrees(show, icon, last) && icon.timer.Some? && last <= at <= icon.timer.value
      ensures forall t: nat :: at <= t < icon.timer.value ==> IoPurple(Some(NextShow(show, at)), t, solid) == icon.purple
    {
      forall t: nat | at <= t < icon.timer.value ensures IoPurple(Some(NextShow(show, at)), t, solid) == icon.purple {
        assert IoPurple(show, t, solid) == icon.purple;
      }
    }

    lemma {:induction false} RunAgrees(events: seq<Event>, icon: Icon)
      requires Run(events, icon)
      ensures Agrees(Folded(events), icon, LastTime(events))
      decreases |events|
    {
      if events != [] {
        var init, e := events[..|events| - 1], events[|events| - 1];
        var was :| Run(init, was) && CanHappen(was, e, LastTime(init)) && icon == Next(was, e, LastTime(init));
        RunAgrees(init, was);
        StepAgrees(Folded(init), was, e, LastTime(init));
      }
    }

    /** A showing never starts after the clock: CanHappen's last clause holds of every event in time order. */
    lemma ShowingStarted(events: seq<Event>, icon: Icon, now: nat)
      requires Run(events, icon) && LastTime(events) <= now
      ensures icon.show.Some? ==> icon.show.value.start <= now
    {
      RunAgrees(events, icon);
    }

    /** The displayed colour is the rule's, at every instant of every run. */
    lemma DisplayIsRule(events: seq<Event>, icon: Icon, t: nat)
      requires Run(events, icon) && Settled(events, icon, t)
      ensures icon.purple == IoPurple(Folded(events), t, solid)
    {
      RunAgrees(events, icon);
    }

    lemma {:induction false} FoldedEnds(events: seq<Event>)
      ensures Folded(events).Some? <==> LastPulse(events).Some?
      ensures Folded(events).Some? ==> Folded(events).value.end == LastPulse(events).value + IO_SHOW_MS
    {
      if events != [] { FoldedEnds(events[..|events| - 1]); }
    }

    /** When the burst of watched traffic that is going on began: pulses less than a second apart are one burst. */
    ghost function BurstStart(events: seq<Event>): Option<nat> {
      if events == [] then None
      else
        var init, e := events[..|events| - 1], events[|events| - 1];
        if !(e.Pulse? && e.channel in watched) then BurstStart(init)
        else if LastPulse(init).Some? && e.at < LastPulse(init).value + IO_SHOW_MS then BurstStart(init)
        else Some(e.at)
    }

    lemma {:induction false} FoldedStarts(events: seq<Event>)
      ensures BurstStart(events).Some? <==> Folded(events).Some?
      ensures Folded(events).Some? ==> Folded(events).value.start == BurstStart(events).value
    {
      if events != [] {
        FoldedStarts(events[..|events| - 1]);
        FoldedEnds(events[..|events| - 1]);
      }
    }

    /** The blinking icon: purple in the first quarter second of a burst of traffic, then off and on by quarters, until a
        second after the last pulse. */
    lemma BlinksByQuarters(events: seq<Event>, icon: Icon, t: nat)
      requires !solid && Run(events, icon) && Settled(events, icon, t)
      ensures icon.purple <==>
                && LastPulse(events).Some? && BurstStart(events).Some?
                && BurstStart(events).value <= t < LastPulse(events).value + 1000
                && (t - BurstStart(events).value) % 500 < 250
    {
      DisplayIsRule(events, icon, t);
      FoldedEnds(events);
      FoldedStarts(events);
      if Folded(events).Some? && Folded(events).value.start <= t { Quarters(t - Folded(events).value.start); }
    }

    lemma Quarters(x: nat)
      ensures (x / 250) % 2 == 0 <==> x % 500 < 250
    {
      var q, r := x / 500, x % 500;
      assert x == 500 * q + r;
      if r < 250 { assert x / 250 == 2 * q; } else { assert x / 250 == 2 * q + 1; }
    }

    /** The solid icon is purple exactly while the last pulse is under a second old. */
    lemma SolidWhileRecent(events: seq<Event>, icon: Icon, t: nat)
      requires solid && Run(events, icon) && Settled(events, icon, t)
      ensures icon.purple <==> LastPulse(events).Some? && t < LastPulse(events).value + IO_SHOW_MS
    {
      RunAgrees(events, icon);
      DisplayIsRule(events, icon, t);
      FoldedEnds(events);
    }

    /** A second after the last pulse the loop has stopped: no timer is left and the icon shows its state. */
    lemma LoopStops(events: seq<Event>, icon: Icon, t: nat)
      requires Run(events, icon) && Settled(events, icon, t)
      requires LastPulse(events).Some? ==> LastPulse(events).value + IO_SHOW_MS <= t
      ensures icon == START
    {
      RunAgrees(events, icon);
      FoldedEnds(events);
    }

    /** A pulse while a timer waits sets no other and repaints nothing; with none waiting it turns the icon purple at once
        and starts one. */
    lemma PulseTicksOnce(events: seq<Event>, icon: Icon, at: nat)
      requires Run(events, icon) && LastTime(events) <= at && (icon.timer.Some? ==> at <= icon.timer.value)
      ensures icon.show.Some? ==> icon.show.value.start <= at
      ensures var next := PulseStep(icon, at, solid);
              if icon.timer.Some? then next.timer == icon.timer && next.purple == icon.purple
              else next.purple && next.timer.Some? && next.show == Some(IoShow(at, at + IO_SHOW_MS))
    {
      RunAgrees(events, icon);
    }

    /** A tick that goes on waits for the next instant there may be news: the solid icon until the showing's end, the
        blinking one until the next quarter second of the showing, or its end. */
    lemma TicksAtQuarters(icon: Icon, now: nat)
      requires icon.show.Some? && icon.show.value.start <= now < icon.show.value.end
      ensures var show, due := icon.show.value, TickStep(icon, now, solid).timer;
              && due.Some? && now < due.value <= show.end
              && (solid ==> due.value == show.end)
              && (!solid ==> due.value <= now + 250
                             && (due.value == show.end || (due.value - show.start) % 250 == 0))
    {
      var show := icon.show.value;
      var x := now - show.start;
      var q, r := x / 250, x % 250;
      assert x == 250 * q + r;
      assert (x + 250 - r) % 250 == 0;
    }

    /** Each firing ends the loop or waits strictly longer, never past the showing's end. */
    lemma FiringProgresses(events: seq<Event>, icon: Icon)
      requires Run(events, icon) && icon.timer.Some?
      ensures icon.show.Some? && icon.show.value.start <= icon.timer.value <= icon.show.value.end
      ensures var next := TickStep(icon, icon.timer.value, solid);
              next.timer.Some? ==> icon.timer.value < next.timer.value <= icon.show.value.end
    {
      RunAgrees(events, icon);
    }
  }
}
