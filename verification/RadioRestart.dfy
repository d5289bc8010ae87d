/** The restart of the phone's own Bluetooth after the radio was off: a step
    machine moved on by feedback alone, with a bound on how often it may land in
    the wrong place and start over. */
module RadioRestart {
  import opened Basics

  const LAYOUT_MAX_TRIES: nat := 5

  type Host = string

  datatype Step = Idle | WaitReady | WaitStopped | WaitPublished | WaitLanded

  /** What the machine does to the outside, in order. */
  datatype Call = ClosePairWindow | Choose(host: Option<Host>)

  /** The refs of the component and the shared state it reads and sets. */
  datatype World = World(
    step: Step, layoutTries: nat, resumeHost: Option<Host>, lastRadio: Option<bool>, startChecked: bool,
    on: bool, chosenHost: Option<Host>, askingReady: bool, calls: seq<Call>)

  /** What moves the machine: the radio, the check at app start, and feedback. */
  datatype Event =
    | Radio(radioOn: Option<bool>, ready: bool)
    | StartCheck(now: int, known: int, ready: bool)
    | Ready
    | Stopped
    | SwitchOn
    | Advertising(now: int, known: int)
    | RetryTimer
    | AskTick

  // ---------------------------------------------------------------- the rule of each effect

  function StopOurs(w: World): World {
    w.(askingReady := false, step := WaitStopped, on := false)
  }

  function ChooseHost(w: World, host: Option<Host>): World {
    w.(chosenHost := host, calls := w.calls + [Choose(host)])
  }

  function StartRestart(w: World, ready: bool): World {
    var started := w.(layoutTries := 0, step := WaitReady, askingReady := true);
    if ready then StopOurs(started) else started
  }

  function OnRadio(w: World, now: Option<bool>, ready: bool): World {
    var seen := w.(lastRadio := now);
    if now.None? || w.lastRadio.None? || now == w.lastRadio then seen
    else if !now.value then
      var closed := seen.(step := Idle, calls := seen.calls + [ClosePairWindow]);
      if w.chosenHost.Some? then ChooseHost(closed.(resumeHost := w.chosenHost), None) else closed
    else if !w.on then seen
    else StartRestart(seen, ready)
  }

  /** Runs once the services first advertise. */
  function OnStartCheck(w: World, now: int, known: int, ready: bool): World {
    if w.startChecked || !w.on || w.step != Idle then w
    else
      var checked := w.(startChecked := true);
      if known <= 0 || now == known then checked
      else StartRestart(checked.(resumeHost := w.chosenHost), ready)
  }

  /** Where the services landed decides: again, or done. */
  predicate LandedWrong(tries: nat, now: int, known: int) {
    ((known <= 0 && tries == 0) || (known > 0 && now != known)) && tries < LAYOUT_MAX_TRIES
  }

  function OnAdvertising(w: World, now: int, known: int): World {
    if w.step != WaitLanded then w
    else if LandedWrong(w.layoutTries, now, known) then w.(layoutTries := w.layoutTries + 1, step := WaitReady)
    else
      var done := w.(step := Idle, resumeHost := None);
      if w.resumeHost.Some? then ChooseHost(done, w.resumeHost) else done
  }

  function Next(w: World, e: Event): World {
    match e
    case Radio(now, ready) => OnRadio(w, now, ready)
    case StartCheck(now, known, ready) => OnStartCheck(w, now, known, ready)
    case Ready => if w.step == WaitReady then StopOurs(w) else w
    case Stopped => if w.step == WaitStopped && !w.on then w.(step := WaitPublished, on := true) else w
    case SwitchOn => if w.step == WaitPublished && w.on then w.(step := WaitLanded) else w
    case Advertising(now, known) => OnAdvertising(w, now, known)
    case RetryTimer => if w.step == WaitReady then StopOurs(w) else w
    case AskTick => if w.askingReady && w.step != WaitReady then w.(askingReady := false) else w
  }

  function Run(w: World, events: seq<Event>): World
    decreases |events|
  {
    if events == [] then w else Run(Next(w, events[0]), events[1..])
  }

  // ---------------------------------------------------------------- the component

  class RadioStatus {
    var step: Step
    var layoutTries: nat
    var resumeHost: Option<Host>
    var lastRadio: Option<bool>
    var startChecked: bool
    var on: bool
    var chosenHost: Option<Host>
    var askingReady: bool
    var calls: seq<Call>

    constructor (on: bool, chosenHost: Option<Host>)
      ensures State() == World(Idle, 0, None, None, false, on, chosenHost, false, [])
    {
      step, layoutTries, resumeHost, lastRadio, startChecked := Idle, 0, None, None, false;
      this.on, this.chosenHost, askingReady, calls := on, chosenHost, false, [];
    }

    function State(): World
      reads this
    {
      World(step, layoutTries, resumeHost, lastRadio, startChecked, on, chosenHost, askingReady, calls)
    }

    method ChooseHostNow(host: Option<Host>)
      modifies this
      ensures State() == ChooseHost(old(State()), host)
    {
      chosenHost := host;
      calls := calls + [Choose(host)];
    }

    method StopOursNow()
      modifies this
      ensures State() == StopOurs(old(State()))
    {
      askingReady := false;
      step := WaitStopped;
      on := false;
    }

    method RadioChanged(now: Option<bool>, ready: bool)
      modifies this
      ensures State() == Next(old(State()), Radio(now, ready))
    {
      var prev := lastRadio;
      lastRadio := now;
      if now.None? || prev.None? || now == prev { return; }
      if !now.value {
        step := Idle;
        calls := calls + [ClosePairWindow];
        if chosenHost.Some? {
          resumeHost := chosenHost;
          ChooseHostNow(None);
        }
        return;
      }
      if !on { return; }
      layoutTries := 0;
      step := WaitReady;
      askingReady := true;
      if ready { StopOursNow(); }
    }

    method StartsAdvertising(now: int, known: int, ready: bool)
      modifies this
      ensures State() == Next(old(State()), StartCheck(now, known, ready))
    {
      if startChecked || !on || step != Idle { return; }
      startChecked := true;
      if known <= 0 || now == known { return; }
      layoutTries := 0;
      resumeHost := chosenHost;
      step := WaitReady;
      askingReady := true;
      if ready { StopOursNow(); }
    }

    method BecameReady()
      modifies this
      ensures State() == Next(old(State()), Ready)
    {
      if step == WaitReady { StopOursNow(); }
    }

    method HasStopped()
      modifies this
      ensures State() == Next(old(State()), Stopped)
    {
      if step != WaitStopped || on { return; }
      step := WaitPublished;
      on := true;
    }

    method SwitchedOn()
      modifies this
      ensures State() == Next(old(State()), SwitchOn)
    {
      if step != WaitPublished || !on { return; }
      step := WaitLanded;
    }

    /** The wait before a retry is over. */
    method RetryTimerFired()
      modifies this
      ensures State() == Next(old(State()), RetryTimer)
    {
      if step == WaitReady { StopOursNow(); }
    }

    /** The look for an answer stops once nothing waits for it. */
    method AskTicked()
      modifies this
      ensures State() == Next(old(State()), AskTick)
    {
      if askingReady && step != WaitReady { askingReady := false; }
    }

    method Landed(now: int, known: int)
      modifies this
      ensures State() == Next(old(State()), Advertising(now, known))
    {
      if step != WaitLanded { return; }
      var unknownFirstTry := known <= 0 && layoutTries == 0;
      if (unknownFirstTry || (known > 0 && now != known)) && layoutTries < LAYOUT_MAX_TRIES {
        layoutTries := layoutTries + 1;
        step := WaitReady;
        return;
      }
      step := Idle;
      var host := resumeHost;
      resumeHost := None;
      if host.Some? { ChooseHostNow(host); }
    }
  }

  // ---------------------------------------------------------------- the sequence ends

  /** Everything that is not the radio or the start check. */
  predicate Feedback(e: Event) {
    !e.Radio? && !e.StartCheck?
  }

  function Rank(step: Step): nat {
    match step
    case Idle => 0
    case WaitLanded => 1
    case WaitPublished => 2
    case WaitStopped => 3
    case WaitReady => 4
  }

  /** Tries left first, then how far the step is from idle. */
  function Remaining(w: World): nat
    requires w.layoutTries <= LAYOUT_MAX_TRIES
  {
    5 * (LAYOUT_MAX_TRIES - w.layoutTries) + Rank(w.step)
  }

  /** The switch stands where each step left it. */
  predicate Consistent(w: World) {
    w.layoutTries <= LAYOUT_MAX_TRIES
    && (w.step != Idle ==> (w.on <==> w.step != WaitStopped))
  }

  /** The state right after the radio came back with the switch on. */
  predicate JustReturned(w0: World, w: World) {
    exists ready: bool :: w0.lastRadio == Some(false) && w0.on && w == OnRadio(w0, Some(true), ready)
  }

  function NextFeedback(w: World, now: int, known: int): Event
    requires w.step != Idle
  {
    match w.step
    case WaitReady => Ready
    case WaitStopped => Stopped
    case WaitPublished => SwitchOn
    case WaitLanded => Advertising(now, known)
  }

  /** Feedback never moves the machine away from idle; the one each step waits for always brings it nearer. */
  lemma FeedbackProgresses(w: World, e: Event)
    requires Consistent(w) && Feedback(e)
    ensures Consistent(Next(w, e))
    ensures w.step == Idle ==> Next(w, e).(askingReady := w.askingReady) == w
    ensures Remaining(Next(w, e)) < Remaining(w) || Next(w, e).(askingReady := w.askingReady) == w
    ensures w.step != Idle ==>
              forall now, known :: e == NextFeedback(w, now, known) ==> Remaining(Next(w, e)) < Remaining(w)
    ensures w.step == WaitReady && e.RetryTimer? ==> Next(w, e).step == WaitStopped && !Next(w, e).on
    ensures e.AskTick? ==> Next(w, e) == w.(askingReady := w.askingReady && w.step == WaitReady)
  {
  }

  /** Still on its way with the computer to come back held, or idle with the switch on and that computer chosen once. */
  predicate OnItsWay(w0: World, host: Option<Host>, w: World) {
    && Consistent(w)
    && if w.step != Idle then w.resumeHost == host && w.calls == w0.calls && w.chosenHost == w0.chosenHost
       else
         && w.on && w.resumeHost == None
         && w.calls == w0.calls + (if host.Some? then [Choose(host)] else [])
         && (host.Some? ==> w.chosenHost == host)
  }

  lemma {:induction false} FeedbackKeepsTheWay(w0: World, host: Option<Host>, w: World, events: seq<Event>)
    requires OnItsWay(w0, host, w) && forall e :: e in events ==> Feedback(e)
    ensures OnItsWay(w0, host, Run(w, events))
    decreases |events|
  {
    hide Next, OnItsWay;
    if events != [] {
      assert events[0] in events;
      FeedbackOnTheWay(w0, host, w, events[0]);
      FeedbackKeepsTheWay(w0, host, Next(w, events[0]), events[1..]);
    }
  }

  lemma FeedbackOnTheWay(w0: World, host: Option<Host>, w: World, e: Event)
    requires OnItsWay(w0, host, w) && Feedback(e)
    ensures OnItsWay(w0, host, Next(w, e))
  {
  }

  /** Whatever feedback arrives after a radio return: at most five retries, and on reaching idle the
      switch is on and the remembered computer has been chosen exactly once. */
  lemma ReturnEndsWell(w0: World, w: World, events: seq<Event>)
    requires JustReturned(w0, w) && forall e :: e in events ==> Feedback(e)
    ensures var end := Run(w, events);
            && end.layoutTries <= LAYOUT_MAX_TRIES
            && (end.step == Idle ==>
                  && end.on
                  && end.calls == w0.calls + (if w0.resumeHost.Some? then [Choose(w0.resumeHost)] else [])
                  && (w0.resumeHost.Some? ==> end.chosenHost == w0.resumeHost))
  {
    FeedbackKeepsTheWay(w0, w0.resumeHost, w, events);
  }

  /** The feedback each step waits for, given where the services land each time, for as long as the machine is not idle. */
  function Drive(w: World, landings: nat -> (int, int)): World
    requires Consistent(w)
    ensures Drive(w, landings).step == Idle
    decreases Remaining(w)
  {
    if w.step == Idle then w
    else
      var l := landings(w.layoutTries);
      var e := NextFeedback(w, l.0, l.1);
      FeedbackProgresses(w, e);
      Drive(Next(w, e), landings)
  }

  /** If feedback keeps arriving the machine gets to idle, wherever the services land. */
  lemma {:induction false} DriveIsARun(w: World, landings: nat -> (int, int)) returns (events: seq<Event>)
    requires Consistent(w)
    ensures Run(w, events) == Drive(w, landings) && |events| <= Remaining(w)
    ensures forall e :: e in events ==> Feedback(e)
    decreases Remaining(w)
  {
    if w.step == Idle {
      events := [];
    } else {
      var l := landings(w.layoutTries);
      var e := NextFeedback(w, l.0, l.1);
      FeedbackProgresses(w, e);
      var rest := DriveIsARun(Next(w, e), landings);
      events := [e] + rest;
      assert events[1..] == rest;
    }
  }

  lemma RestartTerminates(w0: World, w: World, landings: nat -> (int, int)) returns (events: seq<Event>)
    requires JustReturned(w0, w)
    ensures |events| <= 29 && forall e :: e in events ==> Feedback(e)
    ensures Run(w, events).step == Idle && Run(w, events).on
    ensures w0.resumeHost.Some? ==> Run(w, events).chosenHost == w0.resumeHost
  {
    assert Consistent(w) && Remaining(w) <= 29;
    events := DriveIsARun(w, landings);
    ReturnEndsWell(w0, w, events);
  }

  // ---------------------------------------------------------------- where the services land

  /** The services are where the computer last read them; or no computer ever has, and they were restarted once. */
  predicate LandedWell(tries: nat, now: int, known: int) {
    if known > 0 then now == known else tries > 0
  }

  /** Feedback ends the sequence in one way only: the services advertise, and they landed well or every retry is used.
      Then it always ends; a landing where the computer knows them always does, and any other is tried again. */
  lemma EndsExactlyWhenLanded(w: World, e: Event)
    requires Consistent(w) && w.step != Idle && Feedback(e)
    ensures Next(w, e).step == Idle <==>
              e.Advertising? && w.step == WaitLanded
              && (LandedWell(w.layoutTries, e.now, e.known) || w.layoutTries == LAYOUT_MAX_TRIES)
    ensures Next(w, e).layoutTries ==
            if e.Advertising? && w.step == WaitLanded && Next(w, e).step != Idle then w.layoutTries + 1 else w.layoutTries
  {
  }

  /** The first landing from this try on that is well, or the last there may be. */
  function FirstWell(tries: nat, landings: nat -> (int, int)): (k: nat)
    requires tries <= LAYOUT_MAX_TRIES
    ensures tries <= k <= LAYOUT_MAX_TRIES
    ensures forall i: nat :: tries <= i < k ==> !LandedWell(i, landings(i).0, landings(i).1)
    ensures k < LAYOUT_MAX_TRIES ==> LandedWell(k, landings(k).0, landings(k).1)
    decreases LAYOUT_MAX_TRIES - tries
  {
    if tries == LAYOUT_MAX_TRIES || LandedWell(tries, landings(tries).0, landings(tries).1) then tries
    else FirstWell(tries + 1, landings)
  }

  /** Driven by the feedback each step waits for, the services are started over once for each landing before the first
      that is well - and five times if none of the first five is. */
  lemma {:induction false} RetriesAreBadLandings(w: World, landings: nat -> (int, int))
    requires Consistent(w) && w.step != Idle
    ensures Drive(w, landings).layoutTries == FirstWell(w.layoutTries, landings)
    decreases Remaining(w)
  {
    hide FirstWell;
    var l := landings(w.layoutTries);
    var e := NextFeedback(w, l.0, l.1);
    FeedbackProgresses(w, e);
    EndsExactlyWhenLanded(w, e);
    FirstWellStep(w.layoutTries, landings);
    if Next(w, e).step != Idle { RetriesAreBadLandings(Next(w, e), landings); }
  }

  lemma FirstWellStep(tries: nat, landings: nat -> (int, int))
    requires tries <= LAYOUT_MAX_TRIES
    ensures FirstWell(tries, landings) ==
            if tries == LAYOUT_MAX_TRIES || LandedWell(tries, landings(tries).0, landings(tries).1) then tries
            else FirstWell(tries + 1, landings)
  {
  }

  /** From a return: as many retries as landings before the first that is well, at most five. */
  lemma ReturnRetries(w0: World, w: World, landings: nat -> (int, int))
    requires JustReturned(w0, w)
    ensures Drive(w, landings).layoutTries == FirstWell(0, landings) <= LAYOUT_MAX_TRIES
  {
    RetriesAreBadLandings(w, landings);
  }

  // ---------------------------------------------------------------- how a restart begins

  /** A restart stops ours at once if the computers' list is there already, and else asks for it and waits. */
  predicate Begun(w: World, ready: bool) {
    w.layoutTries == 0 && w.step == (if ready then WaitStopped else WaitReady) && w.on == !ready && w.askingReady == !ready
  }

  /** From idle, an event begins a restart exactly when the radio comes back with the switch on, or the first check
      after the app's start finds the services where the computer does not know them. */
  lemma RestartBegins(w: World, e: Event)
    requires w.step == Idle
    ensures Next(w, e).step != Idle <==>
              (e.Radio? && w.lastRadio == Some(false) && e.radioOn == Some(true) && w.on)
              || (e.StartCheck? && !w.startChecked && w.on && e.known > 0 && e.now != e.known)
    ensures Next(w, e).step != Idle && e.Radio? ==> Begun(Next(w, e), e.ready)
    ensures Next(w, e).step != Idle && e.StartCheck? ==> Begun(Next(w, e), e.ready) && Next(w, e).resumeHost == w.chosenHost
  {
    OnOrOff(w.lastRadio);
    if e.Radio? { OnOrOff(e.radioOn); }
  }

  lemma OnOrOff(r: Option<bool>)
    ensures r == None || r == Some(true) || r == Some(false)
  {
    if r.Some? {
      if r.value { assert r == Some(true); } else { assert r == Some(false); }
    }
  }

  /** The check at app start is made once: whatever follows, another changes nothing. */
  lemma {:induction false} StartCheckedOnce(w: World, e: Event, events: seq<Event>, again: Event)
    requires e.StartCheck? && w.on && w.step == Idle && again.StartCheck?
    ensures var t := Run(Next(w, e), events); t.startChecked && Next(t, again) == t
  {
    StaysChecked(Next(w, e), events);
  }

  lemma {:induction false} StaysChecked(w: World, events: seq<Event>)
    requires w.startChecked
    ensures Run(w, events).startChecked
    decreases |events|
  {
    if events != [] { StaysChecked(Next(w, events[0]), events[1..]); }
  }

  function Closes(calls: seq<Call>): nat {
    if calls == [] then 0 else Closes(calls[..|calls| - 1]) + if calls[|calls| - 1].ClosePairWindow? then 1 else 0
  }

  /** How often the radio goes off, having been on. */
  function TimesOff(last: Option<bool>, events: seq<Event>): nat
    decreases |events|
  {
    if events == [] then 0
    else
      var e := events[0];
      var off := e.Radio? && last == Some(true) && e.radioOn == Some(false);
      (if off then 1 else 0) + TimesOff(if e.Radio? then e.radioOn else last, events[1..])
  }

  lemma ClosesMore(calls: seq<Call>, c: Call)
    ensures Closes(calls + [c]) == Closes(calls) + if c.ClosePairWindow? then 1 else 0
  {
    assert (calls + [c])[..|calls|] == calls;
  }

  /** The radio going off closes the pairing window, and puts a chosen computer aside; no other event of the radio calls
      anything. */
  lemma RadioCalls(w: World, e: Event)
    requires e.Radio?
    ensures var t, off := Next(w, e), w.lastRadio == Some(true) && e.radioOn == Some(false);
            && t.lastRadio == e.radioOn
            && t.calls == (if !off then w.calls
                           else if w.chosenHost.Some? then w.calls + [ClosePairWindow] + [Choose(None)]
                           else w.calls + [ClosePairWindow])
            && (off ==> t.step == Idle && t.chosenHost == None && t.on == w.on
                        && t.resumeHost == (if w.chosenHost.Some? then w.chosenHost else w.resumeHost))
  {
    OnOrOff(w.lastRadio);
    OnOrOff(e.radioOn);
  }

  lemma OtherCalls(w: World, e: Event)
    requires !e.Radio?
    ensures Next(w, e).lastRadio == w.lastRadio
    ensures Next(w, e).calls == w.calls || Next(w, e).calls == w.calls + [Choose(w.resumeHost)]
  {
  }

  lemma ClosesStep(w: World, e: Event)
    ensures Closes(Next(w, e).calls) ==
            Closes(w.calls) + if e.Radio? && w.lastRadio == Some(true) && e.radioOn == Some(false) then 1 else 0
    ensures Next(w, e).lastRadio == if e.Radio? then e.radioOn else w.lastRadio
  {
    hide Next, Closes;
    ClosesMore(w.calls, ClosePairWindow);
    ClosesMore(w.calls + [ClosePairWindow], Choose(None));
    ClosesMore(w.calls, Choose(w.resumeHost));
    if e.Radio? { RadioCalls(w, e); } else { OtherCalls(w, e); }
  }

  /** Over any run the pairing window is closed once each time the radio goes off, and never otherwise. */
  lemma {:induction false} WindowClosesWithRadio(w: World, events: seq<Event>)
    ensures Closes(Run(w, events).calls) == Closes(w.calls) + TimesOff(w.lastRadio, events)
    decreases |events|
  {
    hide Next, Closes;
    if events != [] {
      ClosesStep(w, events[0]);
      WindowClosesWithRadio(Next(w, events[0]), events[1..]);
    }
  }

  // ---------------------------------------------------------------- the remembered computer

  /** The computer the machine holds or has chosen. */
  function Held(w: World): Option<Host> {
    if w.resumeHost.Some? then w.resumeHost else w.chosenHost
  }

  predicate OneComputer(w: World) {
    w.resumeHost.Some? && w.chosenHost.Some? ==> w.resumeHost == w.chosenHost
  }

  /** Once the start check has run, no toggle of the radio and no feedback loses the computer. */
  lemma {:induction false} ComputerSurvives(w: World, events: seq<Event>)
    requires w.startChecked && OneComputer(w)
    ensures Held(Run(w, events)) == Held(w) && OneComputer(Run(w, events)) && Run(w, events).startChecked
    decreases |events|
  {
    hide Next, Held, OneComputer;
    if events != [] {
      StepKeepsComputer(w, events[0]);
      ComputerSurvives(Next(w, events[0]), events[1..]);
    }
  }

  lemma StepKeepsComputer(w: World, e: Event)
    requires w.startChecked && OneComputer(w)
    ensures Held(Next(w, e)) == Held(w) && OneComputer(Next(w, e)) && Next(w, e).startChecked
  {
  }

  /** The start check restarts ours while the computer is held but not chosen. */
  predicate Forgets(w: World, e: Event) {
    e.StartCheck? && !w.startChecked && w.on && w.step == Idle && e.known > 0 && e.now != e.known
    && w.chosenHost.None? && w.resumeHost.Some?
  }

  lemma StepKeepsUnlessForgotten(w: World, e: Event)
    requires OneComputer(w)
    ensures OneComputer(Next(w, e))
    ensures !Forgets(w, e) ==> Held(Next(w, e)) == Held(w)
    ensures Forgets(w, e) ==> Held(Next(w, e)) == None && Next(w, e).startChecked
  {
  }

  /** Some step of the run forgets the computer. */
  predicate ForgetsAlong(w: World, events: seq<Event>)
    decreases |events|
  {
    events != [] && (Forgets(w, events[0]) || ForgetsAlong(Next(w, events[0]), events[1..]))
  }

  /** Over any run at all, a computer held or chosen is still held or chosen at the end if and only if no start check
      restarted ours while it was held but not chosen; after such a one none is, for good. */
  lemma {:induction false} ComputerKeptExactly(w: World, events: seq<Event>)
    requires OneComputer(w) && Held(w).Some?
    ensures Held(Run(w, events)) == if ForgetsAlong(w, events) then None else Held(w)
    decreases |events|
  {
    hide Next, Held, OneComputer, Forgets;
    if events != [] {
      var w1 := Next(w, events[0]);
      StepKeepsUnlessForgotten(w, events[0]);
      if Forgets(w, events[0]) {
        ComputerSurvives(w1, events[1..]);
      } else {
        ComputerKeptExactly(w1, events[1..]);
      }
    }
  }

  // ---------------------------------------------------------------- an interruption that is not resumed

  /** The radio going off in the middle of a restart: its return starts over exactly when ours was not stopping. */
  lemma ReturnRestartsUnlessStopping(w: World, ready0: bool, ready1: bool)
    requires Consistent(w) && w.step != Idle && w.lastRadio == Some(true)
    ensures var back := Run(w, [Radio(Some(false), ready0), Radio(Some(true), ready1)]);
            && (back.step != Idle <==> w.step != WaitStopped)
            && (w.step == WaitStopped ==> back.step == Idle && !back.on)
  {
    RunTwo(w, Radio(Some(false), ready0), Radio(Some(true), ready1));
    var off := OnRadio(w, Some(false), ready0);
    assert off.step == Idle && off.lastRadio == Some(false) && off.on == w.on;
    ReturnRestartsIffOn(off, ready1);
  }

  lemma RunTwo(w: World, e: Event, f: Event)
    ensures Run(w, [e, f]) == Next(Next(w, e), f)
  {
    assert [e, f][1..] == [f] && [f][1..] == [];
    assert Run(Next(w, e), [f]) == Run(Next(Next(w, e), f), []);
  }

  lemma ReturnRestartsIffOn(w: World, ready: bool)
    requires w.lastRadio == Some(false) && w.step == Idle
    ensures OnRadio(w, Some(true), ready).step != Idle <==> w.on
    ensures !w.on ==> OnRadio(w, Some(true), ready).step == Idle && !OnRadio(w, Some(true), ready).on
  {
  }

  /** Idle with the switch off, it stays so over any run of any events - radio toggles, start check and feedback - and
      no computer is chosen again. */
  lemma {:induction false} OffStaysOff(w: World, events: seq<Event>)
    requires w.step == Idle && !w.on
    ensures var end := Run(w, events);
            end.step == Idle && !end.on && (end.chosenHost == w.chosenHost || end.chosenHost == None)
    decreases |events|
  {
    if events != [] { OffStaysOff(Next(w, events[0]), events[1..]); }
  }

  /** So a radio that goes off while ours is stopping leaves the switch off for good. */
  lemma StoppingInterrupted(w: World, ready0: bool, ready1: bool, events: seq<Event>)
    requires Consistent(w) && w.step == WaitStopped && w.lastRadio == Some(true)
    ensures var back := Run(w, [Radio(Some(false), ready0), Radio(Some(true), ready1)]);
            back.chosenHost == None && Run(back, events).step == Idle && !Run(back, events).on
            && Run(back, events).chosenHost == None
  {
    ReturnRestartsUnlessStopping(w, ready0, ready1);
    RunTwo(w, Radio(Some(false), ready0), Radio(Some(true), ready1));
    OffStaysOff(Run(w, [Radio(Some(false), ready0), Radio(Some(true), ready1)]), events);
  }
}
