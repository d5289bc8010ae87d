/** The pairing ceremony the other way round: every whole ceremony in one window
    does add the pairing, with its code shown and its answers sent; and a window
    that has ended adds none until the person opens another. */
module BtWholeCeremony {
  import opened Basics
  import opened BtTransit
  import opened BtTransitSafety
  import opened BtCeremony
  import opened BtEffects

  /** A pairing message of this type, from the computer at a. */
  predicate PairFrame(lib: Lib, e: Event, t: MsgType, a: Address) {
    e.call.HandleFrame? && WithHighBit(e.call.command) == PAIR && e.call.address == a && lib.msgType(e.call.bytes) == t
  }

  /** The calls that do not touch the pairing window: traffic, connections, the person's other switches. */
  predicate Aside(lib: Lib, e: Event) {
    && !e.call.OpenPairWindow? && !e.call.ClosePairWindow? && !e.call.StartAgain? && !e.call.ApprovePairing?
    && (e.call.HandleFrame? && WithHighBit(e.call.command) == PAIR ==> lib.msgType(e.call.bytes) == HELLO)
  }

  lemma AsideKeeps(lib: Lib, g: Gate, e: Event)
    requires Aside(lib, e)
    ensures Step(lib, g, e).pair == g.pair
  {
    if e.call.HandleFrame? && WithHighBit(e.call.command) == PAIR {
      hide OnHello, Load, OnSealed, OnPlain;
    } else {
      hide Step;
      OthersKeepPair(lib, g, e);
    }
  }

  lemma {:induction false} AsideRun(lib: Lib, g: Gate, events: seq<Event>)
    requires forall e :: e in events ==> Aside(lib, e)
    ensures Run(lib, g, events).pair == g.pair
  {
    hide Step, Aside;
    if events != [] {
      var init, e := events[..|events| - 1], events[|events| - 1];
      assert e in events;
      assert forall x :: x in init ==> x in events;
      AsideRun(lib, g, init);
      AsideKeeps(lib, Run(lib, g, init), e);
    }
  }

  function Told(g: Gate, msg: Bytes): seq<Frame> {
    if g.sender.None? then g.sent else g.sent + [Frame(g.sender.value, PAIR, msg)]
  }

  lemma CommitDoes(lib: Lib, g: Gate, e: Event, a: Address)
    requires PairFrame(lib, e, COMMIT, a) && WindowOpen(g.pair, e.now) && (g.pair.address == None || g.pair.address == Some(a))
    ensures var r := lib.onCommit(Load(lib, g, e.entropy).state.value.identity, g.pair.until, e.now, e.call.bytes);
            var h := Step(lib, g, e);
            if r.None? then h == Load(lib, g, e.entropy)
            else
              && h.pair == Pairing(g.pair.until, Some(a), Some(r.value.0), g.pair.pending, Waiting(g.pair.until))
              && h.sent == Told(g, r.value.1)
  {
    hide Load, OnHello;
    LoadLeaves(lib, g, e.entropy);
  }

  /** A REVEAL the library accepts shows the person its code and name; one it refuses ends the window. */
  lemma RevealDoes(lib: Lib, g: Gate, e: Event, a: Address)
    requires PairFrame(lib, e, REVEAL, a) && WindowOpen(g.pair, e.now) && g.pair.address == Some(a) && g.pair.lib.Some?
    ensures var r := lib.onReveal(g.pair.lib.value, e.call.bytes, e.now);
            var h := Step(lib, g, e);
            if r.None? then !StageOpen(h.pair.view)
            else h.pair == Pairing(g.pair.until, Some(a), Some(r.value.state), g.pair.pending,
                                   Code(g.pair.until, r.value.code, r.value.name, a))
                 && h.sent == g.sent
  {
    hide Load, OnHello;
    LoadLeaves(lib, g, e.entropy);
  }

  /** The person's approval sends the computer its answer, keeps the record it makes, and goes on showing the code. */
  lemma ApproveDoes(lib: Lib, g: Gate, e: Event, a: Address, code: string, name: string)
    requires e.call.ApprovePairing? && WindowOpen(g.pair, e.now) && g.pair.address == Some(a) && g.pair.lib.Some?
    requires g.pair.view == Code(g.pair.until, code, name, a)
    ensures var (pending, msg) := lib.approve(g.pair.lib.value, e.now, Some(a));
            var h := Step(lib, g, e);
            && h.pair == Pairing(g.pair.until, Some(a), None, Some(pending), Approved(g.pair.until, code, name))
            && h.sent == Told(g, msg)
  {
  }

  /** A valid CONFIRM makes the record approved the one pairing of its id, leaves every other as it is, stores them,
      acknowledges and ends the window; an invalid one changes nothing. */
  lemma ConfirmAdds(lib: Lib, g: Gate, e: Event, a: Address)
    requires lib.Lawful() && PairFrame(lib, e, CONFIRM, a) && WindowOpen(g.pair, e.now) && g.pair.address == Some(a)
    requires g.pair.pending.Some?
    ensures var rec, loaded, h := g.pair.pending.value, Load(lib, g, e.entropy), Step(lib, g, e);
            if !lib.onConfirm(rec, e.call.bytes) then h == loaded
            else
              && h.state.Some?
              && (forall x :: PairingOf(h, x) == if x == rec.id then Some(rec) else PairingOf(loaded, x))
              && SessionsEnded(loaded, h, rec.id)
              && h.pair == Pairing(0, None, None, None, Paired(rec.code, rec.name))
              && h.sent == Told(g, lib.pairAck(rec))
              && h.box.Some? && lib.boxOpen(h.box.value) == h.state
  {
    hide Load, OnHello, OnConfirm, SessionsEnded;
    LoadLeaves(lib, g, e.entropy);
    var loaded := Load(lib, g, e.entropy);
    forall x: string
      ensures !lib.onConfirm(g.pair.pending.value, e.call.bytes)
              || (OnConfirm(lib, loaded, e.call.bytes).state.Some?
                  && PairingOf(OnConfirm(lib, loaded, e.call.bytes), x) ==
                     if x == g.pair.pending.value.id then Some(g.pair.pending.value) else PairingOf(loaded, x))
    {
      BtEffects.ConfirmDoes(lib, loaded, e.call.bytes, x);
    }
    BtEffects.ConfirmDoes(lib, loaded, e.call.bytes, "");
    if lib.onConfirm(g.pair.pending.value, e.call.bytes) { ConfirmStores(lib, loaded, e.call.bytes); }
  }

  lemma ConfirmStores(lib: Lib, g: Gate, msg: Bytes)
    requires lib.Lawful() && g.state.Some? && g.pair.pending.Some? && lib.onConfirm(g.pair.pending.value, msg)
    ensures var h := OnConfirm(lib, g, msg); h.box.Some? && lib.boxOpen(h.box.value) == h.state
  {
    AdoptStores(lib, g, g.pair.pending.value);
    hide Adopt;
  }

  lemma AdoptStores(lib: Lib, g: Gate, rec: PairRecord)
    requires lib.Lawful() && g.state.Some?
    ensures var h := Adopt(lib, g, rec); h.box.Some? && lib.boxOpen(h.box.value) == h.state
  {
  }

  /** The four steps of a ceremony, with whatever else the gate did before each. */
  datatype Ceremony = Ceremony(opening: Event, q1: seq<Event>, committing: Event, q2: seq<Event>, revealing: Event,
                               q3: seq<Event>, approving: Event, q4: seq<Event>, confirming: Event)
  {
    predicate Shaped(lib: Lib, a: Address) {
      && opening.call.OpenPairWindow? && PairFrame(lib, committing, COMMIT, a) && PairFrame(lib, revealing, REVEAL, a)
      && approving.call.ApprovePairing? && PairFrame(lib, confirming, CONFIRM, a)
      && (forall e :: e in q1 ==> Aside(lib, e)) && (forall e :: e in q2 ==> Aside(lib, e))
      && (forall e :: e in q3 ==> Aside(lib, e)) && (forall e :: e in q4 ==> Aside(lib, e))
      && var until := opening.now + lib.pairWindow;
         committing.now < until && revealing.now < until && approving.now < until && confirming.now < until
    }

    function AtCommit(lib: Lib, g: Gate): Gate { Run(lib, Step(lib, g, opening), q1) }
    function AtReveal(lib: Lib, g: Gate): Gate { Run(lib, Step(lib, AtCommit(lib, g), committing), q2) }
    function AtApproval(lib: Lib, g: Gate): Gate { Run(lib, Step(lib, AtReveal(lib, g), revealing), q3) }
    function AtConfirm(lib: Lib, g: Gate): Gate { Run(lib, Step(lib, AtApproval(lib, g), approving), q4) }
    function End(lib: Lib, g: Gate): Gate { Step(lib, AtConfirm(lib, g), confirming) }
  }

  /** From any state: a whole ceremony from one computer in one window, each step accepted by the library, shows that
      code to the person and ends with the record approved as the pairing of its id, stored and acknowledged. */
  lemma WholeCeremonyPairs(lib: Lib, g: Gate, c: Ceremony, a: Address)
    requires lib.Lawful() && c.Shaped(lib, a)
    ensures var until := c.opening.now + lib.pairWindow;
            var g1, g2, g3, g4, h := c.AtCommit(lib, g), c.AtReveal(lib, g), c.AtApproval(lib, g), c.AtConfirm(lib, g), c.End(lib, g);
            var committed := lib.onCommit(Load(lib, g1, c.committing.entropy).state.value.identity, until, c.committing.now, c.committing.call.bytes);
            committed.Some? ==>
              var revealed := lib.onReveal(committed.value.0, c.revealing.call.bytes, c.revealing.now);
              revealed.Some? ==>
                && g3.pair.view == Code(until, revealed.value.code, revealed.value.name, a)
                && (var (rec, msg) := lib.approve(revealed.value.state, c.approving.now, Some(a));
                    && g4.pair.view == Approved(until, revealed.value.code, revealed.value.name)
                    && g4.pair.pending == Some(rec)
                    && (lib.onConfirm(rec, c.confirming.call.bytes) ==>
                          && h.state.Some? && PairingOf(h, rec.id) == Some(rec)
                          && (forall x :: x != rec.id ==> PairingOf(h, x) == PairingOf(Load(lib, g4, c.confirming.entropy), x))
                          && h.pair.view == Paired(rec.code, rec.name)
                          && h.sent == Told(g4, lib.pairAck(rec))
                          && h.box.Some? && lib.boxOpen(h.box.value) == h.state))
  {
    hide Step, Run, Load, Aside;
    var until := c.opening.now + lib.pairWindow;
    WindowOpens(lib, g, c.opening);
    AsideRun(lib, Step(lib, g, c.opening), c.q1);
    var g1 := c.AtCommit(lib, g);
    CommitDoes(lib, g1, c.committing, a);
    var committed := lib.onCommit(Load(lib, g1, c.committing.entropy).state.value.identity, until, c.committing.now, c.committing.call.bytes);
    if committed.Some? {
      AsideRun(lib, Step(lib, g1, c.committing), c.q2);
      var g2 := c.AtReveal(lib, g);
      RevealDoes(lib, g2, c.revealing, a);
      var revealed := lib.onReveal(committed.value.0, c.revealing.call.bytes, c.revealing.now);
      if revealed.Some? {
        AsideRun(lib, Step(lib, g2, c.revealing), c.q3);
        var g3 := c.AtApproval(lib, g);
        ApproveDoes(lib, g3, c.approving, a, revealed.value.code, revealed.value.name);
        AsideRun(lib, Step(lib, g3, c.approving), c.q4);
        ConfirmAdds(lib, c.AtConfirm(lib, g), c.confirming, a);
      }
    }
  }

  lemma WindowOpens(lib: Lib, g: Gate, e: Event)
    requires e.call.OpenPairWindow?
    ensures var until := e.now + lib.pairWindow;
            Step(lib, g, e).pair == Pairing(until, None, None, None, Waiting(until))
  {
  }

  lemma EndedStep(lib: Lib, g: Gate, e: Event)
    requires !StageOpen(g.pair.view) && !e.call.OpenPairWindow?
    ensures !StageOpen(Step(lib, g, e).pair.view)
    ensures FactOf(lib, g, e).Some? ==> FactOf(lib, g, e).value.WindowClosed?
  {
    hide OnHello, OnSealed, OnPlain, Outgoing, LinkGone, SetOn, RevokeById, ClearNotices, AgeForTest, Load;
    if !e.call.ClosePairWindow? && !e.call.StartAgain? && !e.call.ApprovePairing?
       && !(e.call.HandleFrame? && WithHighBit(e.call.command) == PAIR) {
      OthersKeepPair(lib, g, e);
    }
  }

  /** A window that has ended - used, failed, closed or never opened - adds nothing over any run until the person opens
      one: no message is taken and no approval is answered. */
  lemma {:induction false} EndedStaysEnded(lib: Lib, g: Gate, events: seq<Event>)
    requires !StageOpen(g.pair.view) && forall e :: e in events ==> !e.call.OpenPairWindow?
    ensures !StageOpen(Run(lib, g, events).pair.view)
    ensures forall f :: f in LogOf(lib, g, events) ==> f.WindowClosed?
  {
    hide Step, FactOf, StageOpen;
    if events != [] {
      var init, e := events[..|events| - 1], events[|events| - 1];
      assert e in events;
      assert forall x :: x in init ==> x in events;
      EndedStaysEnded(lib, g, init);
      EndedStep(lib, Run(lib, g, init), e);
    }
  }
}
