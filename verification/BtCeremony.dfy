/** The pairing ceremony over whole runs: a pairing, or new secrets for one, comes
    about only by the steps it is meant to. */
module BtCeremony {
  import opened Basics
  import opened BtTransit
  import opened BtTransitSafety

  // ---------------------------------------------------------------- what happened, in order

  /** The steps of pairing as they were accepted. */
  datatype Fact =
    | WindowOpened(until: nat)
    | WindowClosed
    | Committed(address: Address, now: nat)
    | RevealTaken(address: Address, now: nat)
    | PersonApproved(peer: Option<Address>, now: nat, rec: PairRecord)
    | Confirmed(address: Address, now: nat, rec: PairRecord)

  function MessageFact(lib: Lib, g0: Gate, msg: Bytes, a: Address, now: nat, entropy: nat): Option<Fact> {
    var g := Load(lib, g0, entropy);
    var t := lib.msgType(msg);
    if t == HELLO || !WindowOpen(g.pair, now) then None
    else if t == COMMIT then
      if (g.pair.address.None? || g.pair.address == Some(a))
         && lib.onCommit(g.state.value.identity, g.pair.until, now, msg).Some? then Some(Committed(a, now)) else None
    else if g.pair.address != Some(a) then None
    else if t == REVEAL && g.pair.lib.Some? then
      if lib.onReveal(g.pair.lib.value, msg, now).Some? then Some(RevealTaken(a, now)) else None
    else if t == CONFIRM && g.pair.pending.Some? && lib.onConfirm(g.pair.pending.value, msg) then
      Some(Confirmed(a, now, g.pair.pending.value))
    else None
  }

  function FactOf(lib: Lib, g: Gate, e: Event): Option<Fact> {
    match e.call
    case OpenPairWindow => Some(WindowOpened(e.now + lib.pairWindow))
    case ClosePairWindow => Some(WindowClosed)
    case StartAgain => Some(WindowClosed)
    case ApprovePairing =>
      if WindowOpen(g.pair, e.now) && g.pair.view.Code? && g.pair.lib.Some?
      then Some(PersonApproved(g.pair.address, e.now, lib.approve(g.pair.lib.value, e.now, g.pair.address).0)) else None
    case HandleFrame(command, bytes, a) =>
      if WithHighBit(command) == PAIR then MessageFact(lib, g, bytes, a, e.now, e.entropy) else None
    case _ => None
  }

  predicate EndsWindow(f: Fact) {
    f.WindowOpened? || f.WindowClosed? || f.Confirmed?
  }

  /** The log so far lies inside one window, open until `until`. */
  predicate InWindow(log: seq<Fact>, until: nat) {
    log != [] &&
    var f := log[|log| - 1];
    if EndsWindow(f) then f == WindowOpened(until) else InWindow(log[..|log| - 1], until)
  }

  /** In the window the log is in, the computer at a committed before the window's end. */
  predicate CommittedBy(log: seq<Fact>, a: Address, until: nat) {
    log != [] &&
    var init, f := log[..|log| - 1], log[|log| - 1];
    if EndsWindow(f) then false
    else (f.Committed? && f.address == a && f.now < until && InWindow(init, until)) || CommittedBy(init, a, until)
  }

  /** ...and after that its REVEAL was accepted. */
  predicate RevealedBy(log: seq<Fact>, a: Address, until: nat) {
    log != [] &&
    var init, f := log[..|log| - 1], log[|log| - 1];
    if EndsWindow(f) then false
    else (f.RevealTaken? && f.address == a && f.now < until && CommittedBy(init, a, until)) || RevealedBy(init, a, until)
  }

  /** ...and after that the person approved, which made rec. */
  predicate ApprovedFor(log: seq<Fact>, a: Address, until: nat, rec: PairRecord) {
    log != [] &&
    var init, f := log[..|log| - 1], log[|log| - 1];
    if EndsWindow(f) then false
    else (f.PersonApproved? && f.peer == Some(a) && f.now < until && f.rec == rec && RevealedBy(init, a, until))
         || ApprovedFor(init, a, until, rec)
  }

  /** Every computer that took part in the window the log is in is the one at `address`. */
  predicate SoleComputer(log: seq<Fact>, address: Option<Address>) {
    log == [] ||
    var f := log[|log| - 1];
    EndsWindow(f) || ((f.Committed? || f.RevealTaken? ==> address == Some(f.address)) && SoleComputer(log[..|log| - 1], address))
  }

  /** Every pairing added came at the end of the whole ceremony, in one window, from one address. */
  ghost predicate Ceremonies(log: seq<Fact>) {
    log == [] ||
    var init, f := log[..|log| - 1], log[|log| - 1];
    Ceremonies(init) && (f.Confirmed? ==> exists until: nat :: f.now < until && ApprovedFor(init, f.address, until, f.rec))
  }

  function Logged(log: seq<Fact>, f: Option<Fact>): seq<Fact> {
    if f.Some? then log + [f.value] else log
  }

  // ---------------------------------------------------------------- the window follows the log

  ghost predicate Tracks(pair: Pairing, log: seq<Fact>) {
    StageOpen(pair.view) ==>
      && InWindow(log, pair.until)
      && SoleComputer(log, pair.address)
      && (pair.lib.Some? ==> pair.address.Some? && CommittedBy(log, pair.address.value, pair.until))
      && (pair.lib.Some? && pair.view.Code? ==> RevealedBy(log, pair.address.value, pair.until))
      && (pair.pending.Some? ==> pair.address.Some? && ApprovedFor(log, pair.address.value, pair.until, pair.pending.value))
  }

  lemma Appended(log: seq<Fact>, f: Fact)
    ensures (log + [f])[..|log| + 1 - 1] == log && (log + [f])[|log|] == f
  {
  }

  lemma CommitTracks(lib: Lib, g: Gate, msg: Bytes, a: Address, now: nat, log: seq<Fact>)
    requires g.state.Some? && WindowOpen(g.pair, now) && Tracks(g.pair, log)
    ensures var taken := (g.pair.address.None? || g.pair.address == Some(a))
                         && lib.onCommit(g.state.value.identity, g.pair.until, now, msg).Some?;
            Tracks(OnCommit(lib, g, msg, a, now).pair, if taken then log + [Committed(a, now)] else log)
  {
    Appended(log, Committed(a, now));
    if g.pair.address.None? { SoleNone(log, Some(a)); }
  }

  lemma {:induction false} SoleNone(log: seq<Fact>, address: Option<Address>)
    requires SoleComputer(log, None)
    ensures SoleComputer(log, address)
  {
    if log != [] && !EndsWindow(log[|log| - 1]) { SoleNone(log[..|log| - 1], address); }
  }

  lemma RevealTracks(lib: Lib, g: Gate, msg: Bytes, a: Address, now: nat, log: seq<Fact>)
    requires WindowOpen(g.pair, now) && Tracks(g.pair, log) && g.pair.address == Some(a) && g.pair.lib.Some?
    ensures Tracks(OnReveal(lib, g, msg, a, now).pair,
                   if lib.onReveal(g.pair.lib.value, msg, now).Some? then log + [RevealTaken(a, now)] else log)
  {
    Appended(log, RevealTaken(a, now));
  }

  lemma ApproveTracks(lib: Lib, g: Gate, now: nat, log: seq<Fact>)
    requires Tracks(g.pair, log) && WindowOpen(g.pair, now) && g.pair.view.Code? && g.pair.lib.Some?
    ensures Tracks(Approve(lib, g, now).pair,
                   log + [PersonApproved(g.pair.address, now, lib.approve(g.pair.lib.value, now, g.pair.address).0)])
  {
    Appended(log, PersonApproved(g.pair.address, now, lib.approve(g.pair.lib.value, now, g.pair.address).0));
  }

  lemma MessageTracks(lib: Lib, g: Gate, msg: Bytes, a: Address, now: nat, entropy: nat, log: seq<Fact>)
    requires Tracks(g.pair, log)
    ensures Tracks(OnPairMessage(lib, g, msg, a, now, entropy).pair, Logged(log, MessageFact(lib, g, msg, a, now, entropy)))
  {
    hide Tracks, OnHello, OnCommit, OnReveal;
    var h := Load(lib, g, entropy);
    var t := lib.msgType(msg);
    if t != HELLO && WindowOpen(h.pair, now) {
      if t == COMMIT {
        CommitTracks(lib, h, msg, a, now, log);
        CommitRefused(lib, h, msg, a, now);
      } else if h.pair.address == Some(a) {
        if t == REVEAL && h.pair.lib.Some? {
          RevealTracks(lib, h, msg, a, now, log);
        } else if t == CONFIRM && h.pair.pending.Some? && lib.onConfirm(h.pair.pending.value, msg) {
          ClosedTracks(OnConfirm(lib, h, msg).pair, Logged(log, MessageFact(lib, g, msg, a, now, entropy)));
        }
      }
    }
  }

  lemma CommitRefused(lib: Lib, g: Gate, msg: Bytes, a: Address, now: nat)
    requires g.state.Some?
    ensures g.pair.address.Some? && g.pair.address != Some(a) ==> OnCommit(lib, g, msg, a, now) == g
  {
  }

  lemma ClosedTracks(pair: Pairing, log: seq<Fact>)
    requires !StageOpen(pair.view)
    ensures Tracks(pair, log)
  {
  }

  lemma OpenedTracks(pair: Pairing, log: seq<Fact>, until: nat)
    requires pair == Pairing(until, None, None, None, Waiting(until))
    ensures Tracks(pair, log + [WindowOpened(until)])
  {
    Appended(log, WindowOpened(until));
  }

  lemma OthersKeepPair(lib: Lib, g: Gate, e: Event)
    requires !e.call.OpenPairWindow? && !e.call.ClosePairWindow? && !e.call.StartAgain? && !e.call.ApprovePairing?
    requires e.call.HandleFrame? ==> WithHighBit(e.call.command) != PAIR
    ensures Step(lib, g, e).pair == g.pair && FactOf(lib, g, e).None?
  {
    hide OnPairMessage, OnSealed, OnPlain, Outgoing, LinkGone, SetOn, RevokeById, ClearNotices, AgeForTest, Load, Approve, Restart;
  }

  lemma StepTracks(lib: Lib, g: Gate, e: Event, log: seq<Fact>)
    requires Tracks(g.pair, log)
    ensures Tracks(Step(lib, g, e).pair, Logged(log, FactOf(lib, g, e)))
  {
    hide Tracks, OnPairMessage, MessageFact, OnSealed, OnPlain, Load, SetOn, RevokeById, ClearNotices, AgeForTest, Outgoing;
    match e.call
    case OpenPairWindow => OpenedTracks(Step(lib, g, e).pair, log, e.now + lib.pairWindow);
    case ClosePairWindow => ClosedTracks(Step(lib, g, e).pair, Logged(log, FactOf(lib, g, e)));
    case StartAgain => ClosedTracks(Step(lib, g, e).pair, Logged(log, FactOf(lib, g, e)));
    case ApprovePairing =>
      if WindowOpen(g.pair, e.now) && g.pair.view.Code? && g.pair.lib.Some? { ApproveTracks(lib, g, e.now, log); }
    case HandleFrame(command, bytes, a) =>
      if WithHighBit(command) == PAIR {
        MessageTracks(lib, g, bytes, a, e.now, e.entropy, log);
      } else {
        OthersKeepPair(lib, g, e);
      }
    case _ => OthersKeepPair(lib, g, e);
  }

  /** Adding a pairing means a valid CONFIRM ended a whole ceremony inside the window. */
  lemma ConfirmEndsCeremony(lib: Lib, g: Gate, e: Event, log: seq<Fact>)
    requires Tracks(g.pair, log) && FactOf(lib, g, e).Some? && FactOf(lib, g, e).value.Confirmed?
    ensures var f := FactOf(lib, g, e).value;
            f.now == e.now < g.pair.until && ApprovedFor(log, f.address, g.pair.until, f.rec)
  {
    hide ApprovedFor, InWindow, SoleComputer, CommittedBy, RevealedBy;
    assert Load(lib, g, e.entropy).pair == g.pair;
  }

  /** The call is a valid CONFIRM of this very record. */
  predicate ConfirmGives(lib: Lib, g: Gate, e: Event, r: PairRecord) {
    FactOf(lib, g, e).Some? && FactOf(lib, g, e).value.Confirmed? && FactOf(lib, g, e).value.rec == r
  }

  /** The call is a hello that opens a session, and this is the record the library gives back for it. */
  ghost predicate HelloGives(lib: Lib, g: Gate, e: Event, r: PairRecord) {
    e.call.HandleFrame? && OpensAt(lib, g, e, e.call.address)
    && lib.onHello(Load(lib, g, e.entropy).state.value.records, e.call.bytes, e.now, e.call.address).record == r
  }

  /** The call is control traffic that opens under the session of its link, and this is the record the library gives
      for the renewal that session has on offer. */
  ghost predicate RenewalGives(lib: Lib, g: Gate, e: Event, r: PairRecord) {
    && e.call.HandleFrame? && WithHighBit(e.call.command) == SEALED && e.call.address in g.sessions
    && var x := g.sessions[e.call.address];
       var pt := lib.open(x.session, e.call.bytes).1;
       && pt.Some? && pt.value != [] && pt.value[0] == KIND_CONTROL
       && Renewed(lib, Load(lib, g, e.entropy).state.value.records, x, pt.value[1..], e.now) == Some(r)
  }

  lemma BroughtRecords(lib: Lib, g: Gate, e: Event, r: PairRecord)
    requires lib.Lawful() && r in Brings(lib, g, e).records
    ensures ConfirmGives(lib, g, e, r) || HelloGives(lib, g, e, r) || RenewalGives(lib, g, e, r)
  {
    hide Load;
    LoadFollows(lib, g, e.entropy);
  }

  lemma BroughtIds(lib: Lib, g: Gate, e: Event)
    requires lib.Lawful() && Brings(lib, g, e).ids != {}
    ensures FactOf(lib, g, e).Some? && FactOf(lib, g, e).value.Confirmed?
    ensures Brings(lib, g, e).ids == {FactOf(lib, g, e).value.rec.id}
  {
    hide Load;
    LoadFollows(lib, g, e.entropy);
  }

  // ---------------------------------------------------------------- runs

  function LogOf(lib: Lib, g: Gate, events: seq<Event>): seq<Fact> {
    if events == [] then []
    else
      var init := events[..|events| - 1];
      Logged(LogOf(lib, g, init), FactOf(lib, Run(lib, g, init), events[|events| - 1]))
  }

  lemma {:induction false} RunTracks(lib: Lib, g: Gate, events: seq<Event>)
    requires !StageOpen(g.pair.view)
    ensures Tracks(Run(lib, g, events).pair, LogOf(lib, g, events)) && Ceremonies(LogOf(lib, g, events))
  {
    hide Tracks, Step, FactOf, ApprovedFor;
    if events == [] {
      ClosedTracks(g.pair, []);
    } else {
      var init, e := events[..|events| - 1], events[|events| - 1];
      var was, log := Run(lib, g, init), LogOf(lib, g, init);
      RunTracks(lib, g, init);
      StepTracks(lib, was, e, log);
      if FactOf(lib, was, e).Some? {
        Appended(log, FactOf(lib, was, e).value);
        if FactOf(lib, was, e).value.Confirmed? { ConfirmEndsCeremony(lib, was, e, log); }
      }
    }
  }

  /** A valid CONFIRM accepted now, at the end of the whole ceremony in the window that is open. */
  predicate EndsCeremony(lib: Lib, g: Gate, e: Event, log: seq<Fact>) {
    && FactOf(lib, g, e).Some? && FactOf(lib, g, e).value.Confirmed?
    && var f := FactOf(lib, g, e).value;
       f.now == e.now < g.pair.until && ApprovedFor(log, f.address, g.pair.until, f.rec)
  }

  /** Over any run from a closed window: after the next call every pairing has the id and secrets of one there was
      before, or is the very record of a CONFIRM that ends a ceremony of COMMIT, accepted REVEAL and the person's
      approval, in that order, from one address, in one unexpired window - pairing again included - or is what the
      library gave back for an opened hello or a finished renewal; and these last two bring no new id. */
  lemma PairingNeedsTheCeremony(lib: Lib, g: Gate, events: seq<Event>, e: Event, clock: nat, r: PairRecord)
    requires lib.Lawful() && Good(lib, g, clock) && !StageOpen(g.pair.view) && InOrder(events + [e], clock)
    requires r in Pairings(lib, Step(lib, Run(lib, g, events), e))
    ensures var was := Run(lib, g, events);
            && (|| Carries(Pairings(lib, was), r)
                || (ConfirmGives(lib, was, e, r) && EndsCeremony(lib, was, e, LogOf(lib, g, events)))
                || HelloGives(lib, was, e, r)
                || RenewalGives(lib, was, e, r))
            && (r.id !in Ids(lib, was) ==> ConfirmGives(lib, was, e, r) && EndsCeremony(lib, was, e, LogOf(lib, g, events)))
  {
    hide Good, Step, FactOf, ApprovedFor, Ids, Pairings, Brings, Lib.Lawful, Tracks, Carries, HelloGives, RenewalGives;
    var was := Run(lib, g, events);
    PrefixInOrder(events, e, clock);
    RunGood(lib, g, events, clock);
    RunTracks(lib, g, events);
    StepKeepsIdentity(lib, was, e, LastTime(events, clock));
    if r in Brings(lib, was, e).records { BroughtRecords(lib, was, e, r); }
    if ConfirmGives(lib, was, e, r) { ConfirmEndsCeremony(lib, was, e, LogOf(lib, g, events)); }
    if r.id !in Ids(lib, was) { NewIdConfirmed(lib, was, e, r, LogOf(lib, g, events)); }
  }

  lemma NewIdConfirmed(lib: Lib, g: Gate, e: Event, r: PairRecord, log: seq<Fact>)
    requires lib.Lawful() && Tracks(g.pair, log) && r.id !in Ids(lib, g)
    requires Ids(lib, Step(lib, g, e)) <= Ids(lib, g) + Brings(lib, g, e).ids && r in Pairings(lib, Step(lib, g, e))
    requires r in Brings(lib, g, e).records || Carries(Pairings(lib, g), r)
    ensures ConfirmGives(lib, g, e, r) && EndsCeremony(lib, g, e, log)
  {
    hide Step, FactOf, ApprovedFor, Brings, Lib.Lawful, Tracks;
    assert r.id in Ids(lib, Step(lib, g, e));
    BroughtIds(lib, g, e);
    OneRecordBrought(lib, g, e, r);
    BroughtRecords(lib, g, e, r);
    ConfirmEndsCeremony(lib, g, e, log);
  }

  lemma OneRecordBrought(lib: Lib, g: Gate, e: Event, r: PairRecord)
    requires lib.Lawful() && Brings(lib, g, e).ids != {} && r in Brings(lib, g, e).records
    ensures ConfirmGives(lib, g, e, r)
  {
    hide Load;
    LoadFollows(lib, g, e.entropy);
  }

  lemma PrefixInOrder(events: seq<Event>, e: Event, clock: nat)
    requires InOrder(events + [e], clock)
    ensures InOrder(events, clock)
  {
    var all := events + [e];
    assert forall i :: 0 <= i < |events| ==> all[i] == events[i];
  }

  /** Once a window has an address it keeps it until the window ends. */
  lemma WindowKeepsItsAddress(lib: Lib, g: Gate, e: Event)
    requires g.pair.address.Some?
    ensures var h := Step(lib, g, e).pair;
            h.address == g.pair.address || (FactOf(lib, g, e).Some? && EndsWindow(FactOf(lib, g, e).value))
  {
    hide OnHello, OnSealed, OnPlain, Outgoing, Drop, Save, Load;
    if !e.call.OpenPairWindow? && !e.call.ClosePairWindow? && !e.call.StartAgain? && !e.call.ApprovePairing?
       && !(e.call.HandleFrame? && WithHighBit(e.call.command) == PAIR) {
      OthersKeepPair(lib, g, e);
    }
  }
}
