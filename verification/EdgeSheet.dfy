/** The Edge request sheet: messages queued one behind another, at most one
    question to the person, and a sheet that always ends. */
module EdgeSheet {
  import opened Basics

  const SHEET_WAIT_MS: nat := 120000
  const PRESS_WAIT_MS: nat := 20000
  const DECLINED_CLOSE_MS: nat := 30000

  /** A budget request and a new agent identity ask the person; a sync or a read does not. */
  datatype Kind = Budget | SetIdentity | Unasked
  datatype Message = Message(id: nat, kind: Kind)

  datatype Choice = Approve | Decline | Timeout
  datatype Refusal = TimedOut | Declined | Invalid | CopyUnverified | Other(code: string)
  datatype Answer = Ok | Refused(refusal: Refusal) | Dropped

  datatype Sheet =
    | Ask(msg: Message, until: nat)
    | Press(msg: Message, until: nat)
    | Pressed(msg: Message)
    | Done(msg: Message, result: Answer)

  /** How far the message being handled has come. */
  datatype Stage = Started | Checked | Asking(until: nat, blocked: bool) | Resolved(choice: Choice, blocked: bool) | Pressing

  datatype Running = Running(msg: Message, stage: Stage)
  datatype Reply = Reply(msg: Message, answer: Answer)

  /** The module's variables, and what was taken and answered so far.  `answer` is the message whose question a tap
      would answer; `closing` is when the declined sheet closes itself. */
  datatype State = State(
    current: Option<Sheet>, answer: Option<Message>, closing: Option<nat>, inFlight: bool,
    queue: seq<Message>, running: Option<Running>,
    accepted: seq<Message>, served: seq<Reply>, busy: seq<Message>)

  const IDLE := State(None, None, None, false, [], None, [], [], [])

  predicate Asks(m: Message) {
    m.kind.Budget? || m.kind.SetIdentity?
  }

  /** A timed-out sheet nobody has closed. */
  predicate Unattended(s: State) {
    s.current.Some? && s.current.value.Done? && s.current.value.result == Refused(TimedOut)
  }

  datatype Event =
    | Arrives(msg: Message)
    | Begins
    | Checks
    | Shows(blocked: bool, now: nat)
    | Taps(approve: bool)
    | TimesOut(now: nat)
    | AsksPress(now: nat)
    | PressTapped
    | Finishes(result: Answer, now: nat)
    | Fails
    | Closes
    | DeclinedRunsOut(now: nat)

  /** Without a question a request that asks is dropped, or refused as timed out while a timed-out sheet stands, or, an
      unusable identity, as invalid. */
  predicate RefusedUnasked(m: Message, unattended: bool, a: Answer) {
    a == Dropped || (unattended && a == Refused(TimedOut)) || (m.kind.SetIdentity? && a == Refused(Invalid))
  }

  /** What a message may be answered with from a stage: past the check a budget may still be dropped or refused by the
      key, never opened; after its sheet nothing is dropped, and a refusal by the person is passed on as it is. */
  predicate MayAnswer(r: Running, unattended: bool, a: Answer) {
    match r.stage
    case Started => Asks(r.msg) ==> RefusedUnasked(r.msg, unattended, a)
    case Checked => r.msg.kind.Budget? && !a.Ok?
    case Asking(_, _) => false
    case Resolved(choice, blocked) =>
      if blocked then a == Refused(CopyUnverified)
      else if choice == Approve then (if r.msg.kind.SetIdentity? then a == Ok else !a.Dropped?)
      else a == Refused(if choice == Timeout then TimedOut else Declined)
    case Pressing => !a.Dropped?
  }

  predicate Enabled(s: State, e: Event) {
    match e
    case Arrives(_) => true
    case Begins => s.running.None? && s.queue != []
    case Checks => s.running.Some? && s.running.value.stage.Started? && Asks(s.running.value.msg) && !Unattended(s)
    case Shows(blocked, _) => s.running.Some? && s.running.value.stage.Checked? && (blocked ==> s.running.value.msg.kind.Budget?)
    case Taps(_) => s.answer.Some? && s.running.Some? && s.running.value.stage.Asking?
    case TimesOut(now) => s.running.Some? && s.running.value.stage.Asking? && s.running.value.stage.until <= now
    case AsksPress(_) =>
      s.running.Some? && s.running.value.stage == Resolved(Approve, false) && s.running.value.msg.kind.Budget?
    case PressTapped => s.current.Some? && s.current.value.Press?
    case Finishes(a, _) => s.running.Some? && MayAnswer(s.running.value, Unattended(s), a)
    case Fails => s.running.Some? && !s.running.value.stage.Asking?
    case Closes => s.current.Some? && s.current.value.Done?
    case DeclinedRunsOut(now) => s.closing.Some? && s.closing.value <= now
  }

  /** A sheet shown, or none; only a declined one closes itself. */
  function Show(s: State, sheet: Option<Sheet>, now: nat): State {
    var declined := sheet.Some? && sheet.value.Done? && sheet.value.result == Refused(Declined);
    s.(current := sheet, closing := if declined then Some(now + DECLINED_CLOSE_MS) else None)
  }

  function AtStage(s: State, stage: Stage): State
    requires s.running.Some?
  {
    s.(running := Some(s.running.value.(stage := stage)))
  }

  /** The answer goes out and the queue moves on. */
  function Served(s: State, a: Answer): State
    requires s.running.Some?
  {
    var m := s.running.value.msg;
    s.(running := None, served := s.served + [Reply(m, a)], inFlight := if Asks(m) then false else s.inFlight)
  }

  function ResolvedBy(s: State, choice: Choice): State
    requires s.running.Some? && s.running.value.stage.Asking?
  {
    AtStage(s, Resolved(choice, s.running.value.stage.blocked)).(answer := None)
  }

  predicate WasShown(stage: Stage) {
    stage.Resolved? || stage.Pressing?
  }

  function Step(s: State, e: Event): State {
    if !Enabled(s, e) then s
    else
      match e
      case Arrives(m) =>
        if Asks(m) && s.inFlight then s.(busy := s.busy + [m])
        else s.(inFlight := s.inFlight || Asks(m), queue := s.queue + [m], accepted := s.accepted + [m])
      case Begins => s.(running := Some(Running(s.queue[0], Started)), queue := s.queue[1..])
      case Checks => AtStage(s, Checked)
      case Shows(blocked, now) =>
        var m, until := s.running.value.msg, now + SHEET_WAIT_MS;
        AtStage(Show(s, Some(Ask(m, until)), now), Asking(until, blocked)).(answer := Some(m))
      case Taps(approve) => ResolvedBy(s, if approve then Approve else Decline)
      case TimesOut(_) => ResolvedBy(s, Timeout)
      case AsksPress(now) => AtStage(Show(s, Some(Press(s.running.value.msg, now + PRESS_WAIT_MS)), now), Pressing)
      case PressTapped => Show(s, Some(Pressed(s.current.value.msg)), 0)
      case Finishes(a, now) =>
        Served(if WasShown(s.running.value.stage) then Show(s, Some(Done(s.running.value.msg, a)), now) else s, a)
      case Fails =>
        Served(if s.current.Some? then Show(s, Some(Done(s.current.value.msg, Refused(Invalid))), 0) else s, Refused(Invalid))
      case Closes => Show(s, None, 0)
      case DeclinedRunsOut(_) => Show(s, None, 0)
  }

  function Run(s: State, events: seq<Event>): State {
    if events == [] then s else Step(Run(s, events[..|events| - 1]), events[|events| - 1])
  }

  // ---------------------------------------------------------------- what every run keeps

  function Messages(replies: seq<Reply>): seq<Message> {
    if replies == [] then [] else Messages(replies[..|replies| - 1]) + [replies[|replies| - 1].msg]
  }

  /** What is taken and not yet answered, first to last. */
  function Unanswered(s: State): seq<Message> {
    (if s.running.Some? then [s.running.value.msg] else []) + s.queue
  }

  /** How many of them ask the person. */
  function AskCount(ms: seq<Message>): nat {
    if ms == [] then 0 else AskCount(ms[..|ms| - 1]) + if Asks(ms[|ms| - 1]) then 1 else 0
  }

  /** The sheet shows the message being handled, as far as it has come, or a finished one. */
  predicate SheetFits(s: State) {
    match s.running
    case None => s.current.Some? ==> s.current.value.Done?
    case Some(r) =>
      match r.stage
      case Started => s.current.Some? ==> s.current.value.Done?
      case Checked => Asks(r.msg) && !Unattended(s) && (s.current.Some? ==> s.current.value.Done?)
      case Asking(until, _) => Asks(r.msg) && s.current == Some(Ask(r.msg, until))
      case Resolved(_, _) => Asks(r.msg) && s.current.Some? && s.current.value.Ask? && s.current.value.msg == r.msg
      case Pressing =>
        Asks(r.msg) && s.current.Some? && (s.current.value.Press? || s.current.value.Pressed?) && s.current.value.msg == r.msg
  }

  /** The sheet, the tap's answer and the declined sheet's timer all follow the message being handled. */
  predicate ScreenFits(s: State) {
    && SheetFits(s)
    && s.answer == (if s.running.Some? && s.running.value.stage.Asking? then Some(s.running.value.msg) else None)
    && (s.closing.Some? <==> s.current.Some? && s.current.value.Done? && s.current.value.result == Refused(Declined))
  }

  /** Everything taken is answered or still to be, in order, and inFlight counts the questions among the latter. */
  predicate QueueFits(s: State) {
    && AskCount(Unanswered(s)) == (if s.inFlight then 1 else 0)
    && s.accepted == Messages(s.served) + Unanswered(s)
  }

  predicate Good(s: State) {
    ScreenFits(s) && QueueFits(s)
  }

  lemma {:induction false} AskingAppend(ms: seq<Message>, m: Message)
    ensures AskCount(ms + [m]) == AskCount(ms) + if Asks(m) then 1 else 0
  {
    assert (ms + [m])[..|ms|] == ms;
  }

  lemma {:induction false} AskingHead(ms: seq<Message>)
    requires ms != []
    ensures AskCount(ms) == (if Asks(ms[0]) then 1 else 0) + AskCount(ms[1..])
  {
    if |ms| == 1 {
      assert ms[..0] == [] && ms[1..] == [];
    } else {
      var init, last := ms[..|ms| - 1], ms[|ms| - 1];
      AskingHead(init);
      assert init[1..] + [last] == ms[1..];
      AskingAppend(init[1..], last);
    }
  }

  lemma ServedFits(s: State, a: Answer)
    requires s.running.Some? && QueueFits(s)
    ensures QueueFits(Served(s, a))
  {
    var m, t := s.running.value.msg, Served(s, a);
    assert t.served[..|s.served|] == s.served;
    assert Unanswered(s)[0] == m && Unanswered(s)[1..] == s.queue == Unanswered(t);
    AskingHead(Unanswered(s));
    assert Messages(s.served) + ([m] + s.queue) == Messages(s.served) + [m] + s.queue;
  }

  lemma ArrivalFits(s: State, m: Message)
    requires QueueFits(s)
    ensures QueueFits(Step(s, Arrives(m)))
  {
    hide AskCount, Messages, Unanswered;
    if !(Asks(m) && s.inFlight) {
      AskingAppend(Unanswered(s), m);
      Queued(s, m);
      assert Messages(s.served) + Unanswered(s) + [m] == Messages(s.served) + (Unanswered(s) + [m]);
    } else {
      SameUnanswered(s, Step(s, Arrives(m)));
    }
  }

  lemma Queued(s: State, m: Message)
    requires !(Asks(m) && s.inFlight)
    ensures Unanswered(Step(s, Arrives(m))) == Unanswered(s) + [m]
  {
    assert (if s.running.Some? then [s.running.value.msg] else []) + (s.queue + [m]) == Unanswered(s) + [m];
  }

  lemma SameUnanswered(s: State, t: State)
    requires s.running == t.running && s.queue == t.queue
    ensures Unanswered(s) == Unanswered(t)
  {
  }

  lemma ScreenKept(s: State, e: Event)
    requires ScreenFits(s)
    ensures ScreenFits(Step(s, e))
  {
  }

  lemma QueueKept(s: State, e: Event)
    requires QueueFits(s)
    ensures QueueFits(Step(s, e))
  {
    hide AskCount, Messages;
    if Enabled(s, e) {
      var t := Step(s, e);
      match e
      case Arrives(m) => ArrivalFits(s, m);
      case Finishes(a, now) =>
        ServedFits(if WasShown(s.running.value.stage) then Show(s, Some(Done(s.running.value.msg, a)), now) else s, a);
      case Fails =>
        ServedFits(if s.current.Some? then Show(s, Some(Done(s.current.value.msg, Refused(Invalid))), 0) else s, Refused(Invalid));
      case _ => assert Unanswered(t) == Unanswered(s);
    }
  }

  lemma StepGood(s: State, e: Event)
    requires Good(s)
    ensures Good(Step(s, e))
  {
    hide ScreenFits, QueueFits, Step;
    ScreenKept(s, e);
    QueueKept(s, e);
  }

  lemma {:induction false} RunGood(s: State, events: seq<Event>)
    requires Good(s)
    ensures Good(Run(s, events))
  {
    hide Good, Step;
    if events != [] {
      RunGood(s, events[..|events| - 1]);
      StepGood(Run(s, events[..|events| - 1]), events[|events| - 1]);
    }
  }

  // ---------------------------------------------------------------- one question at a time, each message answered once

  /** Over any run: at most one budget or identity request is unanswered, and a new one is told 'busy' at once exactly
      when there is one. */
  lemma OneAskAtATime(events: seq<Event>, m: Message)
    ensures var s := Run(IDLE, events);
            && AskCount(Unanswered(s)) <= 1
            && (Step(s, Arrives(m)).busy == s.busy + [m] <==> Asks(m) && AskCount(Unanswered(s)) == 1)
            && (Step(s, Arrives(m)).busy == s.busy <==> Step(s, Arrives(m)).accepted == s.accepted + [m])
  {
    hide Run;
    RunGood(IDLE, events);
    var s := Run(IDLE, events);
    assert s.busy + [m] != s.busy && s.accepted + [m] != s.accepted;
  }

  /** Over any run: what was answered is the first of what was taken, each once, in the order it came. */
  lemma AnsweredInOrder(events: seq<Event>)
    ensures var s := Run(IDLE, events);
            s.accepted == Messages(s.served) + Unanswered(s)
  {
    RunGood(IDLE, events);
  }

  // ---------------------------------------------------------------- one outcome per question

  /** With no new question shown, a question once answered is answered for good: by one tap or by the timer, not both. */
  lemma {:induction false} OneOutcome(s: State, events: seq<Event>, e: Event)
    requires Good(s) && s.running.Some? && s.running.value.stage.Resolved?
    requires forall k :: 0 <= k < |events| ==> !events[k].Shows?
    requires e.Taps? || e.TimesOut?
    ensures var t := Run(s, events);
            && !Enabled(t, e) && Step(t, e) == t
            && (t.running.Some? && t.running.value.stage.Resolved? ==> t.running == s.running && t.served == s.served)
    decreases |events|
  {
    QuietUntilShown(s, events);
  }

  /** Nothing is being asked, and the resolved question is still the first one. */
  predicate Settled(s: State, t: State) {
    && (t.running.Some? ==> !t.running.value.stage.Asking?)
    && (t.running.Some? && t.running.value.stage.Resolved? ==> t.running == s.running && t.served == s.served)
  }

  lemma {:induction false} QuietUntilShown(s: State, events: seq<Event>)
    requires s.running.Some? && s.running.value.stage.Resolved?
    requires forall k :: 0 <= k < |events| ==> !events[k].Shows?
    ensures Settled(s, Run(s, events))
  {
    if events != [] {
      var init := events[..|events| - 1];
      assert forall k :: 0 <= k < |init| ==> init[k] == events[k];
      QuietUntilShown(s, init);
    }
  }

  // ---------------------------------------------------------------- what was tapped is what is answered

  /** What the person's answer, or the timer, makes of the reply: blocked, it is copy_unverified whatever was tapped; a
      decline and a timeout are passed on as they are; an approval keeps an identity, and leaves a budget to the key. */
  predicate AnswerFits(m: Message, choice: Choice, blocked: bool, a: Answer) {
    if blocked then a == Refused(CopyUnverified)
    else match choice
      case Decline => a == Refused(Declined)
      case Timeout => a == Refused(TimedOut)
      case Approve => if m.kind.SetIdentity? then a == Ok else !a.Dropped?
  }

  /** The question of m was resolved so with n replies out: it still waits for its reply, or the next reply is its own
      and fits, or is that of a throw. */
  predicate Decided(t: State, n: nat, m: Message, choice: Choice, blocked: bool, thrown: bool) {
    && n <= |t.served|
    && if |t.served| == n then
         && t.running.Some? && t.running.value.msg == m
         && (t.running.value.stage == Resolved(choice, blocked)
             || (t.running.value.stage == Pressing && choice == Approve && !blocked && m.kind.Budget?))
       else
         && t.served[n].msg == m
         && (AnswerFits(m, choice, blocked, t.served[n].answer) || (thrown && t.served[n].answer == Refused(Invalid)))
  }

  predicate Throws(events: seq<Event>) {
    exists k :: 0 <= k < |events| && events[k].Fails?
  }

  lemma DecidedStep(t: State, n: nat, m: Message, choice: Choice, blocked: bool, thrown: bool, e: Event)
    requires Decided(t, n, m, choice, blocked, thrown)
    ensures Decided(Step(t, e), n, m, choice, blocked, thrown || e.Fails?)
  {
  }

  lemma {:induction false} DecidedRun(s: State, n: nat, m: Message, choice: Choice, blocked: bool, events: seq<Event>)
    requires Decided(s, n, m, choice, blocked, false)
    ensures Decided(Run(s, events), n, m, choice, blocked, Throws(events))
  {
    hide Decided, Step;
    if events != [] {
      var init, e := events[..|events| - 1], events[|events| - 1];
      DecidedRun(s, n, m, choice, blocked, init);
      DecidedStep(Run(s, init), n, m, choice, blocked, Throws(init), e);
      assert Throws(init) ==> Throws(events) by {
        if Throws(init) { var k :| 0 <= k < |init| && init[k].Fails?; assert events[k].Fails?; }
      }
      assert e.Fails? ==> Throws(events);
      assert Throws(events) ==> Throws(init) || e.Fails? by {
        if Throws(events) { var k :| 0 <= k < |events| && events[k].Fails?; assert k < |init| ==> init[k].Fails?; }
      }
    }
  }

  /** A tap decides: whatever happens after it, the reply to that message is what was tapped - a declined one is refused
      as declined, never Ok - but copy_unverified if blocked, and invalid only if handling throws. */
  lemma TapDecides(s: State, approve: bool, events: seq<Event>)
    requires Good(s) && s.running.Some? && s.running.value.stage.Asking?
    ensures Decided(Run(Step(s, Taps(approve)), events), |s.served|, s.running.value.msg,
                    if approve then Approve else Decline, s.running.value.stage.blocked, Throws(events))
  {
    DecidedRun(Step(s, Taps(approve)), |s.served|, s.running.value.msg,
               if approve then Approve else Decline, s.running.value.stage.blocked, events);
  }

  /** ...and so does the timer: the reply is timed out. */
  lemma TimerDecides(s: State, now: nat, events: seq<Event>)
    requires Good(s) && Enabled(s, TimesOut(now))
    ensures Decided(Run(Step(s, TimesOut(now)), events), |s.served|, s.running.value.msg, Timeout,
                    s.running.value.stage.blocked, Throws(events))
  {
    DecidedRun(Step(s, TimesOut(now)), |s.served|, s.running.value.msg, Timeout, s.running.value.stage.blocked, events);
  }

  /** Until it is answered a question stays on the sheet, whatever else happens; the timer answers it two minutes after
      it was shown, and not before. */
  lemma {:induction false} AsksForTwoMinutes(s: State, blocked: bool, shown: nat, events: seq<Event>, now: nat)
    requires Good(s) && Enabled(s, Shows(blocked, shown))
    requires forall k :: 0 <= k < |events| ==> !events[k].Taps? && !events[k].TimesOut?
    ensures var m, t := s.running.value.msg, Run(Step(s, Shows(blocked, shown)), events);
            && t.running == Some(Running(m, Asking(shown + SHEET_WAIT_MS, blocked)))
            && t.current == Some(Ask(m, shown + SHEET_WAIT_MS))
            && (Enabled(t, TimesOut(now)) <==> now >= shown + SHEET_WAIT_MS)
            && Enabled(t, Taps(true)) && Enabled(t, Taps(false)) && Good(t)
  {
    StepGood(s, Shows(blocked, shown));
    if events != [] {
      var init := events[..|events| - 1];
      assert forall k :: 0 <= k < |init| ==> init[k] == events[k];
      AsksForTwoMinutes(s, blocked, shown, init, now);
      StepGood(Run(Step(s, Shows(blocked, shown)), init), events[|events| - 1]);
    }
  }

  predicate PressTaken(events: seq<Event>) {
    exists k :: 0 <= k < |events| && events[k].PressTapped?
  }

  lemma PressTakenNext(events: seq<Event>)
    requires events != []
    ensures PressTaken(events) <==> PressTaken(events[..|events| - 1]) || events[|events| - 1].PressTapped?
  {
    var init := events[..|events| - 1];
    if PressTaken(init) { var k :| 0 <= k < |init| && init[k].PressTapped?; assert events[k].PressTapped?; }
    if PressTaken(events) {
      var k :| 0 <= k < |events| && events[k].PressTapped?;
      assert k < |init| ==> init[k].PressTapped?;
    }
  }

  /** While the key waits the sheet asks for the press, with twenty seconds from when the key asked, until the press is
      in; then it counts no more. */
  lemma {:induction false} AsksForThePress(s: State, asked: nat, events: seq<Event>)
    requires Good(s) && Enabled(s, AsksPress(asked))
    requires forall k :: 0 <= k < |events| ==> !events[k].Finishes? && !events[k].Fails?
    ensures var m, t := s.running.value.msg, Run(Step(s, AsksPress(asked)), events);
            && t.running == Some(Running(m, Pressing))
            && t.current == Some(if PressTaken(events) then Pressed(m) else Press(m, asked + PRESS_WAIT_MS))
  {
    if events != [] {
      var init := events[..|events| - 1];
      assert forall k :: 0 <= k < |init| ==> init[k] == events[k];
      AsksForThePress(s, asked, init);
      PressTakenNext(events);
      PressClosing(s, asked, init);
    }
  }

  lemma {:induction false} PressClosing(s: State, asked: nat, events: seq<Event>)
    requires Good(s) && Enabled(s, AsksPress(asked))
    ensures Good(Run(Step(s, AsksPress(asked)), events))
  {
    StepGood(s, AsksPress(asked));
    RunGood(Step(s, AsksPress(asked)), events);
  }

  /** At some step of the run the person tapped Yes on the question of m. */
  ghost predicate SaidYes(s: State, events: seq<Event>, m: Message) {
    exists k: nat :: k < |events| && YesAt(s, events, m, k)
  }

  predicate YesAt(s: State, events: seq<Event>, m: Message, k: nat)
    requires k < |events|
  {
    var t := Run(s, events[..k]);
    events[k] == Taps(true) && t.running.Some? && t.running.value.msg == m && t.running.value.stage.Asking?
  }

  /** Whatever needs a Yes has had one. */
  ghost predicate YesGiven(s: State, events: seq<Event>) {
    var t := Run(s, events);
    && (t.running.Some? && (t.running.value.stage.Pressing?
                            || (t.running.value.stage.Resolved? && t.running.value.stage.choice == Approve)) ==>
          SaidYes(s, events, t.running.value.msg))
    && (t.current.Some? && (t.current.value.Press? || t.current.value.Pressed?) ==> SaidYes(s, events, t.current.value.msg))
    && (forall k :: 0 <= k < |t.served| && t.served[k].answer == Ok && Asks(t.served[k].msg) ==>
          SaidYes(s, events, t.served[k].msg))
  }

  lemma YesStays(s: State, events: seq<Event>, e: Event, m: Message)
    requires SaidYes(s, events, m)
    ensures SaidYes(s, events + [e], m)
  {
    var k: nat :| k < |events| && YesAt(s, events, m, k);
    assert (events + [e])[..k] == events[..k];
    assert YesAt(s, events + [e], m, k);
  }

  lemma YesNow(s: State, events: seq<Event>, m: Message)
    requires var t := Run(s, events); t.running.Some? && t.running.value.msg == m && t.running.value.stage.Asking?
    ensures SaidYes(s, events + [Taps(true)], m)
  {
    assert (events + [Taps(true)])[..|events|] == events;
    assert YesAt(s, events + [Taps(true)], m, |events|);
  }

  /** The approval of a question still asked is the tap that makes it. */
  lemma YesStep(t: State, e: Event)
    ensures var u := Step(t, e);
            && (u.running.Some? && (u.running.value.stage.Pressing?
                                    || (u.running.value.stage.Resolved? && u.running.value.stage.choice == Approve)) ==>
                  u.running == t.running || (t.running.Some? && t.running.value.msg == u.running.value.msg
                    && (t.running.value.stage == Resolved(Approve, false)
                        || (t.running.value.stage.Asking? && e == Taps(true)))))
            && (u.current.Some? && (u.current.value.Press? || u.current.value.Pressed?) && u.current != t.current ==>
                  || (u.running.Some? && u.running.value.stage.Pressing? && u.running.value.msg == u.current.value.msg)
                  || (t.current.Some? && t.current.value.Press? && t.current.value.msg == u.current.value.msg))
            && (u.served == t.served || (t.running.Some? && |u.served| == |t.served| + 1 && u.served[..|t.served|] == t.served
                  && u.served[|t.served|].msg == t.running.value.msg
                  && (u.served[|t.served|].answer == Ok && Asks(t.running.value.msg) ==>
                        t.running.value.stage.Pressing?
                        || (t.running.value.stage.Resolved? && t.running.value.stage.choice == Approve))))
  {
  }

  /** Over any run: an Ok to a request that asks - a budget, or an agent identity kept - and a sheet that asks for the
      press come only after the person tapped Yes on that very question. */
  lemma {:induction false} OkNeedsYes(events: seq<Event>)
    ensures YesGiven(IDLE, events)
  {
    hide Step, SaidYes;
    if events != [] {
      var n := |events| - 1;
      var init, e := events[..n], events[n];
      assert events == init + [e];
      var t, u := Run(IDLE, init), Run(IDLE, events);
      OkNeedsYes(init);
      YesStep(t, e);
      forall m | SaidYes(IDLE, init, m) ensures SaidYes(IDLE, events, m) { YesStays(IDLE, init, e, m); }
      if t.running.Some? && t.running.value.stage.Asking? && e == Taps(true) { YesNow(IDLE, init, t.running.value.msg); }
    }
  }

  /** A declined sheet that nobody closes closes itself half a minute later, and not before. */
  lemma DeclinedForHalfAMinute(s: State, shown: nat, now: nat)
    requires Enabled(s, Finishes(Refused(Declined), shown)) && WasShown(s.running.value.stage)
    ensures var t := Step(s, Finishes(Refused(Declined), shown));
            && t.current == Some(Done(s.running.value.msg, Refused(Declined)))
            && (Enabled(t, DeclinedRunsOut(now)) <==> now >= shown + DECLINED_CLOSE_MS)
  {
  }

  // ---------------------------------------------------------------- nothing stalls

  function StageWork(stage: Stage): nat {
    match stage
    case Started => 5
    case Checked => 4
    case Asking(_, _) => 3
    case Resolved(_, _) => 2
    case Pressing => 1
  }

  /** Steps left at most, with nothing new arriving. */
  function Work(s: State): nat {
    6 * |s.queue| + if s.running.Some? then StageWork(s.running.value.stage) else 0
  }

  predicate IsWork(e: Event) {
    e.Begins? || e.Checks? || e.Shows? || e.Taps? || e.TimesOut? || e.AsksPress? || e.Finishes? || e.Fails?
  }

  /** Every step of handling uses up some of the work, failures too; no other event but an arrival adds any. */
  lemma WorkRunsDown(s: State, e: Event)
    ensures IsWork(e) && Enabled(s, e) ==> Work(Step(s, e)) < Work(s)
    ensures !e.Arrives? ==> Work(Step(s, e)) <= Work(s)
  {
  }

  /** While anything is unanswered, handling can go on without the person: the timer ends a question by itself. */
  function NextWork(s: State, now: nat): Event {
    if s.running.None? then Begins
    else
      match s.running.value.stage
      case Started => Finishes(Dropped, now)
      case Checked => if s.running.value.msg.kind.Budget? then Finishes(Dropped, now) else Shows(false, now)
      case Asking(until, _) => TimesOut(until + now)
      case Resolved(choice, blocked) =>
        Finishes(if blocked then Refused(CopyUnverified)
                 else if choice == Approve then Ok
                 else Refused(if choice == Timeout then TimedOut else Declined), now)
      case Pressing => Finishes(Ok, now)
  }

  lemma NeverStuck(s: State, now: nat)
    requires Unanswered(s) != []
    ensures Enabled(s, NextWork(s, now)) && IsWork(NextWork(s, now))
  {
  }

  /** A run of steps that each did something. */
  predicate Effective(s: State, events: seq<Event>) {
    events == [] ||
    (Effective(s, events[..|events| - 1])
     && IsWork(events[|events| - 1]) && Enabled(Run(s, events[..|events| - 1]), events[|events| - 1]))
  }

  /** However the steps fall, taps, timeouts and failures included: at most Work(s) of them, and when none is left every
      message taken has been answered in order and a sheet left on the screen is a finished one. */
  lemma {:induction false} EverythingEnds(s: State, events: seq<Event>, now: nat)
    requires Good(s) && Effective(s, events)
    ensures |events| + Work(Run(s, events)) <= Work(s)
    ensures var t := Run(s, events);
            !Enabled(t, NextWork(t, now)) ==>
              && t.accepted == Messages(t.served)
              && !t.inFlight
              && (t.current.Some? ==> t.current.value.Done?)
  {
    var t := Run(s, events);
    RunGood(s, events);
    if Unanswered(t) != [] { NeverStuck(t, now); }
    if events != [] {
      var init, e := events[..|events| - 1], events[|events| - 1];
      EverythingEnds(s, init, now);
      WorkRunsDown(Run(s, init), e);
    }
  }

  /** A sheet once shown for a message ends in phase done for that message, however its handling ends. */
  lemma ShownSheetEndsDone(s: State, e: Event)
    requires Good(s) && s.running.Some? && (s.running.value.stage.Asking? || WasShown(s.running.value.stage))
    ensures var m, t := s.running.value.msg, Step(s, e);
            && (t.running.None? ==> t.current == Some(Done(m, t.served[|t.served| - 1].answer)) && t.served[|t.served| - 1].msg == m)
            && (t.running.Some? ==> t.running.value.msg == m && t.current.Some? && t.current.value.msg == m)
  {
  }

  /** The timer of a declined sheet closes that sheet, and nothing else. */
  lemma DeclinedClosesItself(s: State, now: nat)
    requires Good(s) && s.closing.Some? && s.closing.value <= now
    ensures s.current.Some? && s.current.value.Done? && s.current.value.result == Refused(Declined)
    ensures Step(s, DeclinedRunsOut(now)) == s.(current := None, closing := None)
  {
  }

  // ---------------------------------------------------------------- nobody is at the phone

  /** A timed-out sheet stays until it is closed, or until the handling of any message at all throws. */
  lemma UnattendedUntil(s: State, e: Event)
    requires Good(s) && Unattended(s) && Enabled(s, e)
    ensures Unattended(Step(s, e)) <==> !e.Closes? && !e.Fails?
  {
  }

  /** No sheet but the timed-out one, no question, and every request that asks refused without one. */
  predicate Waits(s: State, t: State) {
    && t.current == s.current && (t.running.Some? ==> t.running.value.stage.Started?)
    && |s.served| <= |t.served|
    && forall k :: |s.served| <= k < |t.served| && Asks(t.served[k].msg) ==>
         RefusedUnasked(t.served[k].msg, true, t.served[k].answer)
  }

  lemma WaitsStep(s: State, t: State, e: Event)
    requires Unattended(s) && Waits(s, t) && Good(t) && !e.Closes? && !e.Fails?
    ensures Waits(s, Step(t, e))
  {
    hide QueueFits;
  }

  lemma WaitsAtFirst(s: State)
    requires Good(s) && Unattended(s)
    ensures Waits(s, s)
  {
  }

  /** While it stays, no question is put to the person: every run without a close or a throw shows no new sheet, and
      every request that asks is dropped or refused at once. */
  lemma {:induction false} UnattendedAsksNobody(s: State, events: seq<Event>)
    requires Good(s) && Unattended(s)
    requires forall k :: 0 <= k < |events| ==> !events[k].Closes? && !events[k].Fails?
    ensures Waits(s, Run(s, events)) && Good(Run(s, events))
  {
    hide Waits, Good, Step, Unattended;
    if events == [] {
      WaitsAtFirst(s);
    } else {
      var init := events[..|events| - 1];
      assert forall k :: 0 <= k < |init| ==> init[k] == events[k];
      UnattendedAsksNobody(s, init);
      StepGood(Run(s, init), events[|events| - 1]);
      WaitsStep(s, Run(s, init), events[|events| - 1]);
    }
  }

  lemma RunPlus(s: State, events: seq<Event>, e: Event)
    ensures Run(s, events + [e]) == Step(Run(s, events), e)
  {
    assert (events + [e])[..|events|] == events;
  }

  lemma ThrowForgets(s: State, sync: Message)
    requires Good(s) && Unattended(s) && s.running.None? && s.queue == [] && sync.kind.Unasked?
    ensures var t := Step(Step(Step(s, Arrives(sync)), Begins), Fails);
            t.running.None? && t.queue == [] && !t.inFlight && !Unattended(t)
  {
    assert AskCount(Unanswered(s)) == 0;
    var begun := Step(Step(s, Arrives(sync)), Begins);
    assert begun.running == Some(Running(sync, Started)) && begun.queue == [] && begun.current == s.current;
  }

  lemma AskedAgain(s: State, request: Message, now: nat)
    requires s.running.None? && s.queue == [] && !s.inFlight && !Unattended(s) && Asks(request)
    ensures var t := Step(Step(Step(Step(s, Arrives(request)), Begins), Checks), Shows(false, now));
            t.current == Some(Ask(request, now + SHEET_WAIT_MS)) && t.answer == Some(request)
  {
    var begun := Step(Step(s, Arrives(request)), Begins);
    assert begun.running == Some(Running(request, Started)) && begun.current == s.current;
    var checked := Step(begun, Checks);
    assert checked.running == Some(Running(request, Checked));
  }

  /** Whenever a sync's handling throws, a timed-out sheet's mark goes unseen: the next request asks the absent person. */
  lemma ThrowForgetsTheTimeout(s: State, sync: Message, request: Message, now: nat)
    requires Good(s) && Unattended(s) && s.running.None? && s.queue == []
    requires sync.kind.Unasked? && Asks(request)
    ensures var thrown := [Arrives(sync)] + [Begins] + [Fails];
            var asked := thrown + [Arrives(request)] + [Begins] + [Checks] + [Shows(false, now)];
            Run(s, asked).current == Some(Ask(request, now + SHEET_WAIT_MS)) && Run(s, asked).answer == Some(request)
  {
    assert [] + [Arrives(sync)] == [Arrives(sync)];
    var thrown := [Arrives(sync)] + [Begins] + [Fails];
    RunPlus(s, [], Arrives(sync));
    RunPlus(s, [Arrives(sync)], Begins);
    RunPlus(s, [Arrives(sync)] + [Begins], Fails);
    RunPlus(s, thrown, Arrives(request));
    RunPlus(s, thrown + [Arrives(request)], Begins);
    RunPlus(s, thrown + [Arrives(request)] + [Begins], Checks);
    RunPlus(s, thrown + [Arrives(request)] + [Begins] + [Checks], Shows(false, now));
    hide Run, Step, Good, Unattended;
    var free := Step(Step(Step(s, Arrives(sync)), Begins), Fails);
    ThrowForgets(s, sync);
    AskedAgain(free, request, now);
  }

  // ---------------------------------------------------------------- the module's own variables

  /** The sheet as the app keeps it, each function changing its variables in place. */
  class RequestSheet {
    var current: Option<Sheet>
    var answer: Option<Message>
    var closing: Option<nat>
    var inFlight: bool
    var queue: seq<Message>
    var running: Option<Running>
    var accepted: seq<Message>
    var served: seq<Reply>
    var busy: seq<Message>

    ghost function Whole(): State
      reads this
    {
      State(current, answer, closing, inFlight, queue, running, accepted, served, busy)
    }

    constructor ()
      ensures Whole() == IDLE && Good(Whole())
    {
      current, answer, closing, inFlight := None, None, None, false;
      queue, running := [], None;
      accepted, served, busy := [], [], [];
    }

    method Display(sheet: Option<Sheet>, now: nat)
      modifies this`current, this`closing
      ensures Whole() == Show(old(Whole()), sheet, now)
    {
      current := sheet;
      closing := None;
      if sheet.Some? && sheet.value.Done? && sheet.value.result == Refused(Declined) {
        closing := Some(now + DECLINED_CLOSE_MS);
      }
    }

    /** A message from the bridge: told 'busy' at once, or queued behind the others. */
    method HandleEdgeMessage(m: Message) returns (refused: bool)
      modifies this
      ensures Whole() == Step(old(Whole()), Arrives(m)) && (refused <==> Asks(m) && old(inFlight))
    {
      refused := Asks(m) && inFlight;
      if refused {
        busy := busy + [m];
        return;
      }
      if Asks(m) { inFlight := true; }
      queue := queue + [m];
      accepted := accepted + [m];
    }

    /** The queue's next turn. */
    method Begin()
      requires Enabled(Whole(), Begins)
      modifies this
      ensures Whole() == Step(old(Whole()), Begins)
    {
      running := Some(Running(queue[0], Started));
      queue := queue[1..];
    }

    /** Before a question is put: nobody is asked while a timed-out sheet stands. */
    method CheckAttended() returns (ok: bool)
      requires running.Some? && running.value.stage.Started? && Asks(running.value.msg)
      modifies this`running
      ensures Whole() == Step(old(Whole()), Checks) && (ok <==> !old(Unattended(Whole())))
    {
      ok := !(current.Some? && current.value.Done? && current.value.result == Refused(TimedOut));
      if ok { running := Some(running.value.(stage := Checked)); }
    }

    method AskPerson(blocked: bool, now: nat)
      requires Enabled(Whole(), Shows(blocked, now))
      modifies this
      ensures Whole() == Step(old(Whole()), Shows(blocked, now))
    {
      var until := now + SHEET_WAIT_MS;
      Display(Some(Ask(running.value.msg, until)), now);
      answer := Some(running.value.msg);
      running := Some(running.value.(stage := Asking(until, blocked)));
    }

    /** The person's answer on the sheet; with no question open a tap does nothing. */
    method AnswerSheet(approve: bool)
      requires ScreenFits(Whole())
      modifies this`answer, this`running
      ensures Whole() == Step(old(Whole()), Taps(approve))
    {
      var asked := answer;
      answer := None;
      if asked.Some? {
        running := Some(running.value.(stage := Resolved(if approve then Approve else Decline, running.value.stage.blocked)));
      }
    }

    method WaitRunsOut(now: nat)
      requires Enabled(Whole(), TimesOut(now))
      modifies this`answer, this`running
      ensures Whole() == Step(old(Whole()), TimesOut(now))
    {
      answer := None;
      running := Some(running.value.(stage := Resolved(Timeout, running.value.stage.blocked)));
    }

    method OnPress(now: nat)
      requires Enabled(Whole(), AsksPress(now))
      modifies this
      ensures Whole() == Step(old(Whole()), AsksPress(now))
    {
      Display(Some(Press(running.value.msg, now + PRESS_WAIT_MS)), now);
      running := Some(running.value.(stage := Pressing));
    }

    method PressFromSheet()
      modifies this
      ensures Whole() == Step(old(Whole()), PressTapped)
    {
      if current.Some? && current.value.Press? { Display(Some(Pressed(current.value.msg)), 0); }
    }

    method CloseSheet()
      modifies this
      ensures Whole() == Step(old(Whole()), Closes)
    {
      if current.Some? && current.value.Done? { Display(None, 0); }
    }

    method Finish(a: Answer, now: nat)
      requires Enabled(Whole(), Finishes(a, now))
      modifies this
      ensures Whole() == Step(old(Whole()), Finishes(a, now))
    {
      var r := running.value;
      if WasShown(r.stage) { Display(Some(Done(r.msg, a)), now); }
      SendReply(a);
    }

    /** Handling threw: whatever sheet is up ends with the reason, and the queue goes on. */
    method Fail()
      requires Enabled(Whole(), Fails)
      modifies this
      ensures Whole() == Step(old(Whole()), Fails)
    {
      if current.Some? { Display(Some(Done(current.value.msg, Refused(Invalid))), 0); }
      SendReply(Refused(Invalid));
    }

    method SendReply(a: Answer)
      requires running.Some?
      modifies this
      ensures Whole() == Served(old(Whole()), a)
    {
      served := served + [Reply(running.value.msg, a)];
      if Asks(running.value.msg) { inFlight := false; }
      running := None;
    }
  }
}
