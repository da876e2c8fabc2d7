/**
 Why a session does what it does: every call, signature, publication and wait is
 traced to the reply it answers, for one step and over whole runs.
 */
module SessionCauses {
  import opened Wrappers
  import opened SessionSpec
  import opened SessionSafety

  // ---------------------------------------------------------------- what a step may do

  /** What entitles a step to act: a timer, or a reply that is what its tick waited for. */
  datatype Grounds =
    | FromTimer
    | FromCandidates(offer: Offer)
    | FromPreparation(offer: Offer, reply: Option<Prepared>)
    | FromTip(offer: Offer, prepared: Prepared, block: Option<Block>)
    | FromReceipt
    | NoGrounds

  predicate Grounded(a: Action, id: nat, g: Grounds) {
    match a
    case Asked(i, _) => i == id
    case Called(i, Candidates, _) => i == id && g.FromTimer?
    case Called(i, Prepare(batch), _) => i == id && g.FromCandidates? && batch == g.offer.batch && batch != []
    case Called(i, Tip, _) => i == id && g.FromPreparation? && g.reply.Some?
    case Called(i, Submit(raw), _) => i == id && g.FromTip? && g.block.Some? && raw == g.block.value.raw
    case Signed(i, template, o, tip) => i == id && g.FromTip? && o == g.offer && Prepared(template, tip) == g.prepared
    case Published(Checking) => g.FromTimer?
    case Published(Waiting) => (g.FromCandidates? && g.offer.batch == []) || g.FromPreparation?
    case Published(Signing) => g.FromTip?
    case Published(Submitting) => g.FromTip? && g.block.Some?
    case Published(Accepted) => g.FromReceipt?
    case Published(_) => true
  }

  predicate WaitGrounded(at: Await, g: Grounds) {
    match at
    case ForCandidates => g.FromTimer?
    case ForPrepare(o) => g.FromCandidates? && o == g.offer && o.batch != []
    case ForTip(o, p) => g.FromPreparation? && o == g.offer && g.reply == Some(p)
    case ForSubmit(hash) => g.FromTip? && g.block.Some? && hash == g.block.value.hash
  }

  /** The log grows by what the grounds allow, and so do the suspended ticks. */
  predicate Follows(s: State, r: State, id: nat, g: Grounds) {
    && s.log <= r.log
    && (forall i :: |s.log| <= i < |r.log| ==> Grounded(r.log[i].action, id, g))
    && (forall t :: t in r.pending ==>
          (t in s.pending && r.pending[t] == s.pending[t]) || (r.pending[t].id == id && WaitGrounded(r.pending[t].at, g)))
  }

  lemma NoteFollows(b: State, s: State, a: Action, id: nat, g: Grounds)
    requires Follows(b, s, id, g) && Grounded(a, id, g)
    ensures Follows(b, Note(s, a), id, g)
  {
  }

  lemma StopFollows(b: State, s: State, id: nat, g: Grounds)
    requires Follows(b, s, id, g)
    ensures Follows(b, Stop(s), id, g)
  {
  }

  lemma CurrentFollows(b: State, s: State, id: nat, allowed: bool, g: Grounds)
    requires Follows(b, s, id, g)
    ensures Follows(b, Current(s, id, allowed).0, id, g)
  {
    hide Follows, Stop, Note;
    NoteFollows(b, s, Asked(id, allowed), id, g);
    StopFollows(b, Note(s, Asked(id, allowed)), id, g);
  }

  lemma FailFollows(b: State, s: State, id: nat, g: Grounds)
    requires Follows(b, s, id, g)
    ensures Follows(b, Fail(s, id), id, g)
  {
    hide Follows, Stop, Note;
    StopFollows(b, s, id, g);
    NoteFollows(b, Stop(s), Published(Failed), id, g);
  }

  lemma WaitFollows(b: State, s: State, id: nat, at: Await, g: Grounds)
    requires Follows(b, s, id, g) && WaitGrounded(at, g)
    ensures Follows(b, s.(pending := s.pending[s.next := Continuation(id, at)], next := s.next + 1), id, g)
  {
    hide Grounded, WaitGrounded;
  }

  lemma CallFollows(b: State, s: State, id: nat, request: Request, at: Await, g: Grounds)
    requires Follows(b, s, id, g) && WaitGrounded(at, g)
    requires forall aborted :: Grounded(Called(id, request, aborted), id, g)
    ensures Follows(b, Call(s, id, request, at), id, g)
  {
    hide Follows, Fail, Grounded, WaitGrounded;
    if s.controller.None? {
      FailFollows(b, s, id, g);
    } else {
      var a := Called(id, request, s.controller.value in s.aborted);
      NoteFollows(b, s, a, id, g);
      WaitFollows(b, Note(s, a), id, at, g);
    }
  }

  lemma TimedFollows(b: State, s: State, handle: nat, timers: map<nat, nat>, id: nat, g: Grounds)
    requires Follows(b, s, id, g)
    ensures Follows(b, s.(timers := timers, timer := Some(handle), next := handle + 1), id, g)
  {
    hide Grounded, WaitGrounded;
  }

  lemma RearmFollows(b: State, s: State, id: nat, allowed: bool, g: Grounds)
    requires Follows(b, s, id, g)
    ensures Follows(b, Rearm(s, id, allowed), id, g)
  {
    hide Current, Follows;
    CurrentFollows(b, s, id, allowed, g);
    var checked := Current(s, id, allowed).0;
    TimedFollows(b, checked, checked.next, checked.timers[checked.next := id], id, g);
  }

  lemma TickFollows(b: State, s: State, id: nat, allowed: bool)
    requires Follows(b, s, id, FromTimer)
    ensures Follows(b, Tick(s, id, allowed), id, FromTimer)
  {
    hide Follows, Current, Call, Stop, Note;
    CurrentFollows(b, s, id, allowed, FromTimer);
    var checked := Current(s, id, allowed).0;
    StopFollows(b, checked, id, FromTimer);
    NoteFollows(b, checked, Published(Checking), id, FromTimer);
    CallFollows(b, Note(checked, Published(Checking)), id, Candidates, ForCandidates, FromTimer);
  }

  /** The usable coins of a reply from the rotated offset on, at most 128 of them. */
  function BatchOf(s: State, coins: seq<Coin>, reserved: set<(string, nat)>): seq<Coin> {
    var usable := Allowed(coins, reserved);
    usable[BatchStart(s.offset, |usable|)..BatchEnd(s.offset, |usable|)]
  }

  lemma MovedFollows(b: State, s: State, offset: nat, id: nat, g: Grounds)
    requires Follows(b, s, id, g)
    ensures Follows(b, s.(offset := offset), id, g)
  {
    hide Grounded, WaitGrounded;
  }

  lemma AfterCandidatesFollows(s: State, id: nat, coins: seq<Coin>, reserved: set<(string, nat)>, allowed: bool, again: bool)
    ensures Follows(s, AfterCandidates(s, id, coins, reserved, allowed, again), id,
                    FromCandidates(Offer(BatchOf(s, coins, reserved), reserved)))
  {
    var batch := BatchOf(s, coins, reserved);
    var g := FromCandidates(Offer(batch, reserved));
    assert Follows(s, s, id, g);
    hide Follows, Current, Call, Rearm, Note;
    CurrentFollows(s, s, id, allowed, g);
    var usable := Allowed(coins, reserved);
    var moved := Current(s, id, allowed).0.(offset := BatchEnd(s.offset, |usable|));
    MovedFollows(s, Current(s, id, allowed).0, BatchEnd(s.offset, |usable|), id, g);
    if batch != [] {
      CallFollows(s, moved, id, Prepare(batch), ForPrepare(Offer(batch, reserved)), g);
    } else {
      NoteFollows(s, moved, Published(Waiting), id, g);
      RearmFollows(s, Note(moved, Published(Waiting)), id, again, g);
    }
  }

  function PreparationGrounds(o: Offer, eligible: Option<int>, prepared: Option<Prepared>): Grounds {
    if eligible.Some? && 0 <= eligible.value <= |o.batch| then FromPreparation(o, prepared) else NoGrounds
  }

  lemma AfterPrepareFollows(s: State, id: nat, o: Offer, eligible: Option<int>, prepared: Option<Prepared>, allowed: bool, again: bool)
    ensures Follows(s, AfterPrepare(s, id, o, eligible, prepared, allowed, again), id, PreparationGrounds(o, eligible, prepared))
  {
    var g := PreparationGrounds(o, eligible, prepared);
    assert Follows(s, s, id, g);
    hide Follows, Current, Call, Rearm, Fail, Note;
    CurrentFollows(s, s, id, allowed, g);
    var checked := Current(s, id, allowed).0;
    if g.NoGrounds? {
      FailFollows(s, checked, id, g);
    } else {
      var waiting := Note(checked, Published(Waiting));
      NoteFollows(s, checked, Published(Waiting), id, g);
      RearmFollows(s, waiting, id, again, g);
      if prepared.Some? {
        CallFollows(s, waiting, id, Tip, ForTip(o, prepared.value), g);
      }
    }
  }

  function TipGrounds(o: Offer, p: Prepared, tip: Option<string>, signed: Option<Block>): Grounds {
    if tip == Some(p.tip) then FromTip(o, p, signed) else NoGrounds
  }

  lemma AfterTipFollows(s: State, id: nat, o: Offer, p: Prepared, tip: Option<string>, signed: Option<Block>, allowed: bool, again: bool)
    ensures Follows(s, AfterTip(s, id, o, p, tip, signed, allowed, again), id, TipGrounds(o, p, tip, signed))
  {
    var g := TipGrounds(o, p, tip, signed);
    assert Follows(s, s, id, g);
    hide Follows, Current, Call, Rearm, Fail, Note;
    CurrentFollows(s, s, id, allowed, g);
    var checked := Current(s, id, allowed).0;
    if g.NoGrounds? {
      RearmFollows(s, checked, id, again, g);
    } else {
      NoteFollows(s, checked, Published(Signing), id, g);
      NoteFollows(s, Note(checked, Published(Signing)), Signed(id, p.template, o, p.tip), id, g);
      var signing := Note(Note(checked, Published(Signing)), Signed(id, p.template, o, p.tip));
      FailFollows(s, signing, id, g);
      if signed.Some? {
        CurrentFollows(s, signing, id, again, g);
        var rechecked := Current(signing, id, again).0;
        NoteFollows(s, rechecked, Published(Submitting), id, g);
        CallFollows(s, Note(rechecked, Published(Submitting)), id, Submit(signed.value.raw), ForSubmit(signed.value.hash), g);
      }
    }
  }

  function ReceiptGrounds(blockHash: string, hash: Option<string>): Grounds {
    if hash == Some(blockHash) then FromReceipt else NoGrounds
  }

  lemma AfterSubmitFollows(s: State, id: nat, blockHash: string, hash: Option<string>, allowed: bool, again: bool)
    ensures Follows(s, AfterSubmit(s, id, blockHash, hash, allowed, again), id, ReceiptGrounds(blockHash, hash))
  {
    var g := ReceiptGrounds(blockHash, hash);
    assert Follows(s, s, id, g);
    hide Follows, Current, Rearm, Fail, Note;
    CurrentFollows(s, s, id, allowed, g);
    var checked := Current(s, id, allowed).0;
    FailFollows(s, checked, id, g);
    if g.FromReceipt? {
      NoteFollows(s, checked, Published(Accepted), id, g);
      RearmFollows(s, Note(checked, Published(Accepted)), id, again, g);
    }
  }

  lemma FailureFollows(s: State, id: nat, allowed: bool)
    ensures Follows(s, Fail(s, id), id, NoGrounds) && Follows(s, AfterMalformed(s, id, allowed), id, NoGrounds)
  {
    assert Follows(s, s, id, NoGrounds);
    hide Follows, Current, Fail;
    FailFollows(s, s, id, NoGrounds);
    CurrentFollows(s, s, id, allowed, NoGrounds);
    FailFollows(s, Current(s, id, allowed).0, id, NoGrounds);
  }

  /** What a reply entitles the tick that waited for it to. */
  function Cause(s: State, at: Await, reply: Reply): Grounds {
    match (at, reply)
    case (ForCandidates, CoinList(coins, reserved)) => FromCandidates(Offer(BatchOf(s, coins, reserved), reserved))
    case (ForPrepare(o), Eligibility(eligible, prepared)) => PreparationGrounds(o, eligible, prepared)
    case (ForTip(o, p), BestTip(tip, signed)) => TipGrounds(o, p, Some(tip), signed)
    case (ForSubmit(blockHash), Receipt(hash)) => ReceiptGrounds(blockHash, hash)
    case (_, _) => NoGrounds
  }

  lemma ResumeFollows(s: State, k: Continuation, reply: Reply, allowed: bool, again: bool)
    ensures Follows(s, Resume(s, k, reply, allowed, again), k.id, Cause(s, k.at, reply))
  {
    hide Follows, AfterCandidates, AfterPrepare, AfterTip, AfterSubmit, AfterMalformed, Fail, BatchOf;
    match (k.at, reply)
    case (_, Rejected) => FailureFollows(s, k.id, allowed);
    case (ForCandidates, CoinList(coins, reserved)) => AfterCandidatesFollows(s, k.id, coins, reserved, allowed, again);
    case (ForCandidates, _) => FailureFollows(s, k.id, allowed);
    case (ForPrepare(o), Eligibility(eligible, prepared)) => AfterPrepareFollows(s, k.id, o, eligible, prepared, allowed, again);
    case (ForPrepare(o), _) => AfterPrepareFollows(s, k.id, o, None, None, allowed, again);
    case (ForTip(o, p), BestTip(tip, signed)) => AfterTipFollows(s, k.id, o, p, Some(tip), signed, allowed, again);
    case (ForTip(o, p), _) => AfterTipFollows(s, k.id, o, p, None, None, allowed, again);
    case (ForSubmit(blockHash), Receipt(hash)) => AfterSubmitFollows(s, k.id, blockHash, hash, allowed, again);
    case (ForSubmit(blockHash), _) => AfterSubmitFollows(s, k.id, blockHash, None, allowed, again);
  }

  /** The tick a step runs. */
  function StepId(s: State, e: Event): nat {
    match e
    case StartCalled(_, _) => s.generation + 1
    case StopCalled => s.generation
    case TimerFired(handle, _) => if handle in s.timers then s.timers[handle] else s.generation
    case Settled(ticket, _, _, _) => if ticket in s.pending then s.pending[ticket].id else s.generation
  }

  function StepGrounds(s: State, e: Event): Grounds {
    match e
    case StopCalled => NoGrounds
    case Settled(ticket, reply, _, _) => if ticket in s.pending then Cause(s, s.pending[ticket].at, reply) else NoGrounds
    case _ => FromTimer
  }

  /** What a step does follows from its own event. */
  lemma StepFollows(s: State, e: Event)
    ensures Follows(s, Step(s, e), StepId(s, e), StepGrounds(s, e))
  {
    var id, g := StepId(s, e), StepGrounds(s, e);
    hide Tick, Resume, Stop;
    match e
    case StartCalled(asked, allowed) =>
      TickFollows(s, Started(s), Started(s).generation, allowed);
    case StopCalled => StopFollows(s, s, id, g);
    case TimerFired(handle, allowed) =>
      if handle in s.timers {
        TickFollows(s, s.(timers := s.timers - {handle}), s.timers[handle], allowed);
      }
    case Settled(ticket, reply, allowed, again) =>
      if ticket in s.pending {
        ResumeFollows(s.(pending := s.pending - {ticket}), s.pending[ticket], reply, allowed, again);
      }
  }

  /** A coin that may stake. */
  predicate IsUsable(coin: Coin, reserved: set<(string, nat)>) {
    coin.confirmations > 0 && (coin.txid, coin.vout) !in reserved
  }

  /** Exactly the usable coins, in their order. */
  lemma {:induction false} AllowedUsable(coins: seq<Coin>, reserved: set<(string, nat)>)
    ensures forall coin :: coin in Allowed(coins, reserved) <==> coin in coins && IsUsable(coin, reserved)
    ensures forall coin :: IsUsable(coin, reserved) ==> multiset(Allowed(coins, reserved))[coin] == multiset(coins)[coin]
  {
    if coins == [] {
    } else {
      AllowedUsable(coins[1..], reserved);
      assert coins == [coins[0]] + coins[1..];
    }
  }

  /** Coins that may be offered together: at least one and at most 128 of a reply's, each confirmed and not reserved. */
  predicate OfferOf(o: Offer, coins: seq<Coin>, reserved: set<(string, nat)>) {
    o.reserved == reserved && 0 < |o.batch| <= 128 && forall coin :: coin in o.batch ==> coin in coins && IsUsable(coin, reserved)
  }

  lemma BatchOffered(s: State, coins: seq<Coin>, reserved: set<(string, nat)>)
    requires BatchOf(s, coins, reserved) != []
    ensures OfferOf(Offer(BatchOf(s, coins, reserved), reserved), coins, reserved)
  {
    AllowedUsable(coins, reserved);
  }

  /**
   The reply an action answers. A preparation is asked for the rotated batch of the
   candidates just received. A signature is made only when the server names, as the
   best tip, the very tip the template was prepared on; it is of that template, for
   the coins it was prepared with. What is submitted is the block signed in this
   very step, and acceptance is published only for a receipt that names the block
   submitted.
   */
  predicate Answers(s: State, e: Event, a: Action) {
    match a
    case Called(id, Prepare(batch), _) =>
      var usable := if e.Settled? && e.reply.CoinList? then Allowed(e.reply.coins, e.reply.reserved) else [];
      && e.Settled? && e.reply.CoinList? && e.ticket in s.pending && s.pending[e.ticket] == Continuation(id, ForCandidates)
      && batch == usable[BatchStart(s.offset, |usable|)..BatchEnd(s.offset, |usable|)]
      && OfferOf(Offer(batch, e.reply.reserved), e.reply.coins, e.reply.reserved)
    case Signed(id, template, o, tip) =>
      && e.Settled? && e.reply.BestTip? && e.reply.tip == tip && e.ticket in s.pending
      && s.pending[e.ticket] == Continuation(id, ForTip(o, Prepared(template, tip)))
    case Called(id, Submit(raw), _) =>
      && e.Settled? && e.reply.BestTip? && e.reply.signed.Some? && e.reply.signed.value.raw == raw && e.ticket in s.pending
      && s.pending[e.ticket].id == id && s.pending[e.ticket].at.ForTip? && s.pending[e.ticket].at.prepared.tip == e.reply.tip
    case Published(Accepted) =>
      && e.Settled? && e.reply.Receipt? && e.reply.hash.Some? && e.ticket in s.pending
      && s.pending[e.ticket].at == ForSubmit(e.reply.hash.value)
    case _ => true
  }

  lemma StepAnswers(s: State, e: Event, i: nat)
    requires |s.log| <= i < |Step(s, e).log|
    ensures Answers(s, e, Step(s, e).log[i].action)
  {
    StepFollows(s, e);
    hide Step, OfferOf, Allowed;
    assert Grounded(Step(s, e).log[i].action, StepId(s, e), StepGrounds(s, e));
    if e.Settled? && e.reply.CoinList? && BatchOf(s, e.reply.coins, e.reply.reserved) != [] {
      BatchOffered(s, e.reply.coins, e.reply.reserved);
    }
  }

  lemma AllAnswer(s: State, e: Event)
    ensures forall i :: |s.log| <= i < |Step(s, e).log| ==> Answers(s, e, Step(s, e).log[i].action)
  {
    hide Step, Answers;
    forall i | |s.log| <= i < |Step(s, e).log| ensures Answers(s, e, Step(s, e).log[i].action) {
      StepAnswers(s, e, i);
    }
  }

  // ---------------------------------------------------------------- and what it does do

  /** An entry of the live generation of an active session. */
  function Live(s: State, a: Action): Entry {
    Entry(a, s.generation, true)
  }

  /** A live tick that may go on and now waits for something else, having done `entries`. */
  function WaitingOn(s: State, ticket: nat, at: Await, entries: seq<Entry>): State {
    s.(pending := (s.pending - {ticket})[s.next := Continuation(s.generation, at)], next := s.next + 1, log := s.log + entries)
  }

  /** A live tick that has ended and scheduled the next one. */
  function ScheduledAfter(s: State, ticket: nat, entries: seq<Entry>): State {
    s.(pending := s.pending - {ticket}, timers := map[s.next := s.generation], timer := Some(s.next), next := s.next + 1,
       log := s.log + entries)
  }

  predicate Resumes(s: State, ticket: nat, at: Await) {
    s.active && LiveTicket(s, ticket) && s.pending[ticket].at == at && s.timers == map[]
    && s.controller.Some? && s.controller.value !in s.aborted
  }

  lemma LiveResumes(s: State, ticket: nat)
    requires Inv(s) && LiveTicket(s, ticket) && s.active
    ensures Resumes(s, ticket, s.pending[ticket].at)
  {
    hide GoodLog;
  }

  /** Candidates: the batch goes out whole, and the rotation moves past it. */
  lemma BatchAsked(s: State, ticket: nat, coins: seq<Coin>, reserved: set<(string, nat)>)
    requires Resumes(s, ticket, ForCandidates)
    ensures var batch, moved := BatchOf(s, coins, reserved), s.(offset := BatchEnd(s.offset, |Allowed(coins, reserved)|));
            Step(s, Settled(ticket, CoinList(coins, reserved), true, true)) ==
              if Allowed(coins, reserved) != []
              then WaitingOn(moved, ticket, ForPrepare(Offer(batch, reserved)),
                             [Live(s, Asked(s.generation, true)), Live(s, Called(s.generation, Prepare(batch), false))])
              else ScheduledAfter(moved, ticket, [Live(s, Asked(s.generation, true)), Live(s, Published(Waiting)), Live(s, Asked(s.generation, true))])
  {
    hide Allowed, Stop;
    var batch := BatchOf(s, coins, reserved);
    if Allowed(coins, reserved) == [] {
      assert batch == [];
    } else {
      assert |batch| > 0;
    }
  }

  /** A preparation: without a template the next tick is scheduled, with one the best tip is asked for. */
  lemma TipAsked(s: State, ticket: nat, o: Offer, eligible: nat, prepared: Option<Prepared>)
    requires Resumes(s, ticket, ForPrepare(o)) && eligible <= |o.batch|
    ensures Step(s, Settled(ticket, Eligibility(Some(eligible), prepared), true, true)) ==
              if prepared.Some?
              then WaitingOn(s, ticket, ForTip(o, prepared.value),
                             [Live(s, Asked(s.generation, true)), Live(s, Published(Waiting)), Live(s, Called(s.generation, Tip, false))])
              else ScheduledAfter(s, ticket, [Live(s, Asked(s.generation, true)), Live(s, Published(Waiting)), Live(s, Asked(s.generation, true))])
  {
  }

  /** The expected tip: the template is signed and the block submitted. Another tip: nothing is signed, and the next tick is scheduled. */
  lemma BlockSubmitted(s: State, ticket: nat, o: Offer, p: Prepared, tip: string, block: Block)
    requires Resumes(s, ticket, ForTip(o, p))
    ensures Step(s, Settled(ticket, BestTip(tip, Some(block)), true, true)) ==
              if tip == p.tip
              then WaitingOn(s, ticket, ForSubmit(block.hash),
                             [Live(s, Asked(s.generation, true)), Live(s, Published(Signing)), Live(s, Signed(s.generation, p.template, o, tip)),
                              Live(s, Asked(s.generation, true)), Live(s, Published(Submitting)), Live(s, Called(s.generation, Submit(block.raw), false))])
              else ScheduledAfter(s, ticket, [Live(s, Asked(s.generation, true)), Live(s, Asked(s.generation, true))])
  {
  }

  /** The receipt of the block: it is published as accepted, and the next tick is scheduled. */
  lemma BlockAccepted(s: State, ticket: nat, hash: string)
    requires Resumes(s, ticket, ForSubmit(hash))
    ensures Step(s, Settled(ticket, Receipt(Some(hash)), true, true)) ==
              ScheduledAfter(s, ticket, [Live(s, Asked(s.generation, true)), Live(s, Published(Accepted)), Live(s, Asked(s.generation, true))])
  {
  }

  /** A reply that a tick cannot go on with. */
  predicate Unusable(at: Await, reply: Reply) {
    match at
    case ForCandidates => !reply.CoinList?
    case ForPrepare(o) => !reply.Eligibility? || reply.eligible.None? || !(0 <= reply.eligible.value <= |o.batch|)
    case ForTip(_, _) => reply.Rejected?
    case ForSubmit(hash) => reply != Receipt(Some(hash))
  }

  /** Stopped: inactive, the generation over, the signal aborted, no timer. */
  predicate Over(s: State, r: State) {
    && !r.active && r.generation == s.generation + 1 && r.timers == map[]
    && r.controller == s.controller && s.controller.Some? && s.controller.value in r.aborted
  }

  /** An unusable reply stops the session, and the error is published after that. */
  lemma UnusableStops(s: State, ticket: nat, at: Await, reply: Reply, again: bool)
    requires Resumes(s, ticket, at) && Unusable(at, reply)
    ensures var r, stopped := Step(s, Settled(ticket, reply, true, again)), s.generation + 1;
            && Over(s, r) && s.log <= r.log
            && r.log[|s.log|..] ==
                 (if reply.Rejected? || (at.ForCandidates? && reply.Nothing?) then [] else [Live(s, Asked(s.generation, true))])
                 + [Entry(Published(Idle), stopped, false), Entry(Published(Failed), stopped, false)]
  {
    hide AfterTip, AfterCandidates;
    var rest := s.(pending := s.pending - {ticket});
    if reply.Rejected? || (at.ForCandidates? && reply.Nothing?) {
      FailedStops(rest);
    } else {
      FailedStops(Note(rest, Asked(s.generation, true)));
    }
  }

  lemma FailedStops(s: State)
    requires s.active && s.controller.Some? && s.timers == map[]
    ensures Over(s, Fail(s, s.generation))
    ensures Fail(s, s.generation).log ==
              s.log + [Entry(Published(Idle), s.generation + 1, false), Entry(Published(Failed), s.generation + 1, false)]
  {
  }

  /** A reply that comes when signing is no longer allowed stops the session, and nothing else happens. */
  lemma ForbiddenStops(s: State, ticket: nat, at: Await, reply: Reply, again: bool)
    requires Resumes(s, ticket, at) && !reply.Rejected? && !(at.ForCandidates? && reply.Nothing?)
    ensures var r := Step(s, Settled(ticket, reply, false, again));
            && Over(s, r) && r.pending == s.pending - {ticket}
            && r.log == s.log + [Live(s, Asked(s.generation, false)), Entry(Published(Idle), s.generation + 1, false)]
  {
  }

  // ---------------------------------------------------------------- a whole round

  /** The events that carry a tick, waiting for candidates with the given ticket, to an accepted block. */
  function Round(s: State, ticket: nat, coins: seq<Coin>, reserved: set<(string, nat)>, eligible: nat, p: Prepared, block: Block): seq<Event> {
    [Settled(ticket, CoinList(coins, reserved), true, true),
     Settled(s.next, Eligibility(Some(eligible), Some(p)), true, true),
     Settled(s.next + 1, BestTip(p.tip, Some(block)), true, true),
     Settled(s.next + 2, Receipt(Some(block.hash)), true, true)]
  }

  /** What such a round does, in order. */
  function RoundLog(s: State, batch: seq<Coin>, reserved: set<(string, nat)>, p: Prepared, block: Block): seq<Entry> {
    var id, asked := s.generation, Live(s, Asked(s.generation, true));
    [asked, Live(s, Called(id, Prepare(batch), false))]
    + [asked, Live(s, Published(Waiting)), Live(s, Called(id, Tip, false))]
    + [asked, Live(s, Published(Signing)), Live(s, Signed(id, p.template, Offer(batch, reserved), p.tip)),
       asked, Live(s, Published(Submitting)), Live(s, Called(id, Submit(block.raw), false))]
    + [asked, Live(s, Published(Accepted)), asked]
  }

  /** With usable candidates, matching replies and signing allowed throughout, a tick ends in an accepted block and a timer for the next. */
  lemma RoundAccepted(s: State, ticket: nat, coins: seq<Coin>, reserved: set<(string, nat)>, eligible: nat, p: Prepared, block: Block)
    requires Inv(s) && LiveTicket(s, ticket) && s.active && s.pending[ticket].at == ForCandidates
    requires Allowed(coins, reserved) != [] && eligible <= |BatchOf(s, coins, reserved)|
    ensures var events := Round(s, ticket, coins, reserved, eligible, p, block);
            var r := Step(Step(Step(Step(s, events[0]), events[1]), events[2]), events[3]);
            && r.log == s.log + RoundLog(s, BatchOf(s, coins, reserved), reserved, p, block)
            && r.active && r.generation == s.generation && r.timers == map[s.next + 3 := s.generation]
            && r.offset == BatchEnd(s.offset, |Allowed(coins, reserved)|)
  {
    hide Step, Inv, LiveTicket, Allowed, BatchOf, GoodLog;
    var events := Round(s, ticket, coins, reserved, eligible, p, block);
    var o := Offer(BatchOf(s, coins, reserved), reserved);
    LiveResumes(s, ticket);
    BatchAsked(s, ticket, coins, reserved);
    var s1 := Step(s, events[0]);
    StillResumes(s, ticket, ForCandidates, s1, ForPrepare(o));
    TipAsked(s1, s.next, o, eligible, Some(p));
    var s2 := Step(s1, events[1]);
    StillResumes(s1, s.next, ForPrepare(o), s2, ForTip(o, p));
    BlockSubmitted(s2, s.next + 1, o, p, p.tip, block);
    var s3 := Step(s2, events[2]);
    StillResumes(s2, s.next + 1, ForTip(o, p), s3, ForSubmit(block.hash));
    BlockAccepted(s3, s.next + 2, block.hash);
  }

  lemma StillResumes(s: State, ticket: nat, was: Await, r: State, at: Await)
    requires Resumes(s, ticket, was) && r.pending == (s.pending - {ticket})[s.next := Continuation(s.generation, at)]
    requires r.active && r.generation == s.generation && r.timers == s.timers && r.controller == s.controller && r.aborted == s.aborted
    ensures Resumes(r, s.next, at)
  {
  }

  // ---------------------------------------------------------------- over whole runs

  /** An earlier reply listed the coins of the offer. */
  predicate OfferedBy(e: Event, o: Offer) {
    e.Settled? && e.reply.CoinList? && OfferOf(o, e.reply.coins, e.reply.reserved)
  }

  predicate Offered(events: seq<Event>, o: Offer) {
    exists m :: 0 <= m < |events| && OfferedBy(events[m], o)
  }

  /** A later one prepared a template for that offer. */
  predicate PreparedBy(e: Event, o: Offer, p: Prepared) {
    && e.Settled? && e.reply.Eligibility? && e.reply.prepared == Some(p)
    && e.reply.eligible.Some? && 0 <= e.reply.eligible.value <= |o.batch|
  }

  predicate PreparedFor(events: seq<Event>, o: Offer, p: Prepared) {
    exists k :: 0 <= k < |events| && PreparedBy(events[k], o, p) && Offered(events[..k], o)
  }

  /** A later one still named the template's tip as the best tip. */
  predicate TippedBy(e: Event, p: Prepared) {
    e.Settled? && e.reply.BestTip? && e.reply.tip == p.tip
  }

  predicate SignedFor(events: seq<Event>, o: Offer, p: Prepared) {
    exists n :: 0 <= n < |events| && TippedBy(events[n], p) && PreparedFor(events[..n], o, p)
  }

  predicate BlockBy(e: Event, block: Block) {
    e.Settled? && e.reply.BestTip? && e.reply.signed == Some(block)
  }

  /** A block signed at such a moment. */
  ghost predicate BlockFor(events: seq<Event>, block: Block) {
    exists n, o, p :: 0 <= n < |events| && TippedBy(events[n], p) && BlockBy(events[n], block) && PreparedFor(events[..n], o, p)
  }

  predicate ReceivedBy(e: Event, hash: string) {
    e.Settled? && e.reply == Receipt(Some(hash))
  }

  /** A later receipt named such a block. */
  ghost predicate Confirmed(events: seq<Event>) {
    exists n, block: Block :: 0 <= n < |events| && ReceivedBy(events[n], block.hash) && BlockFor(events[..n], block)
  }

  /** The history that an action needs. */
  ghost predicate Explained(events: seq<Event>, a: Action) {
    match a
    case Called(_, Prepare(batch), _) => exists reserved :: Offered(events, Offer(batch, reserved))
    case Called(_, Tip, _) => exists o, p :: PreparedFor(events, o, p)
    case Called(_, Submit(raw), _) => exists hash :: BlockFor(events, Block(raw, hash))
    case Signed(_, template, o, tip) => SignedFor(events, o, Prepared(template, tip))
    case Published(Accepted) => Confirmed(events)
    case _ => true
  }

  /** The history behind a suspended tick. */
  ghost predicate Known(events: seq<Event>, at: Await) {
    match at
    case ForCandidates => true
    case ForPrepare(o) => Offered(events, o)
    case ForTip(o, p) => PreparedFor(events, o, p)
    case ForSubmit(hash) => exists raw :: BlockFor(events, Block(raw, hash))
  }

  lemma OfferedLonger(a: seq<Event>, e: Event, o: Offer)
    requires Offered(a, o)
    ensures Offered(a + [e], o)
  {
    hide OfferedBy;
    var m :| 0 <= m < |a| && OfferedBy(a[m], o);
    assert (a + [e])[m] == a[m];
  }

  lemma PreparedLonger(a: seq<Event>, e: Event, o: Offer, p: Prepared)
    requires PreparedFor(a, o, p)
    ensures PreparedFor(a + [e], o, p)
  {
    hide PreparedBy, Offered;
    var k :| 0 <= k < |a| && PreparedBy(a[k], o, p) && Offered(a[..k], o);
    assert (a + [e])[k] == a[k] && (a + [e])[..k] == a[..k];
  }

  lemma SignedLonger(a: seq<Event>, e: Event, o: Offer, p: Prepared)
    requires SignedFor(a, o, p)
    ensures SignedFor(a + [e], o, p)
  {
    hide TippedBy, PreparedFor;
    var n :| 0 <= n < |a| && TippedBy(a[n], p) && PreparedFor(a[..n], o, p);
    assert (a + [e])[n] == a[n] && (a + [e])[..n] == a[..n];
  }

  lemma BlockLonger(a: seq<Event>, e: Event, block: Block)
    requires BlockFor(a, block)
    ensures BlockFor(a + [e], block)
  {
    hide TippedBy, BlockBy, PreparedFor;
    var n, o, p :| 0 <= n < |a| && TippedBy(a[n], p) && BlockBy(a[n], block) && PreparedFor(a[..n], o, p);
    assert (a + [e])[n] == a[n] && (a + [e])[..n] == a[..n];
  }

  lemma ConfirmedLonger(a: seq<Event>, e: Event)
    requires Confirmed(a)
    ensures Confirmed(a + [e])
  {
    hide ReceivedBy, BlockFor;
    var n, block: Block :| 0 <= n < |a| && ReceivedBy(a[n], block.hash) && BlockFor(a[..n], block);
    assert (a + [e])[n] == a[n] && (a + [e])[..n] == a[..n];
  }

  lemma ExplainedLonger(events: seq<Event>, e: Event, a: Action)
    requires Explained(events, a)
    ensures Explained(events + [e], a)
  {
    hide Offered, PreparedFor, SignedFor, BlockFor, Confirmed;
    match a
    case Called(_, Prepare(batch), _) =>
      var reserved :| Offered(events, Offer(batch, reserved));
      OfferedLonger(events, e, Offer(batch, reserved));
    case Called(_, Tip, _) =>
      var o, p :| PreparedFor(events, o, p);
      PreparedLonger(events, e, o, p);
    case Called(_, Submit(raw), _) =>
      var hash :| BlockFor(events, Block(raw, hash));
      BlockLonger(events, e, Block(raw, hash));
    case Signed(_, template, o, tip) => SignedLonger(events, e, o, Prepared(template, tip));
    case Published(Accepted) => ConfirmedLonger(events, e);
    case _ =>
  }

  lemma KnownLonger(events: seq<Event>, e: Event, at: Await)
    requires Known(events, at)
    ensures Known(events + [e], at)
  {
    hide Offered, PreparedFor, BlockFor;
    match at
    case ForCandidates =>
    case ForPrepare(o) => OfferedLonger(events, e, o);
    case ForTip(o, p) => PreparedLonger(events, e, o, p);
    case ForSubmit(hash) =>
      var raw :| BlockFor(events, Block(raw, hash));
      BlockLonger(events, e, Block(raw, hash));
  }

  /** The history that grounds need, this step's event included. */
  ghost predicate GroundsKnown(events: seq<Event>, g: Grounds) {
    match g
    case FromCandidates(o) => o.batch != [] ==> Offered(events, o)
    case FromPreparation(o, reply) => reply.Some? ==> PreparedFor(events, o, reply.value)
    case FromTip(o, p, block) => SignedFor(events, o, p) && (block.Some? ==> BlockFor(events, block.value))
    case FromReceipt => Confirmed(events)
    case _ => true
  }

  lemma CauseKnown(s: State, before: seq<Event>, e: Event, at: Await)
    requires Known(before, at) && e.Settled?
    ensures GroundsKnown(before + [e], Cause(s, at, e.reply))
  {
    var events, n := before + [e], |before|;
    assert events[n] == e && events[..n] == before;
    hide Offered, PreparedFor, BlockFor, BatchOf, OfferOf;
    match (at, e.reply)
    case (ForCandidates, CoinList(coins, reserved)) =>
      var o := Offer(BatchOf(s, coins, reserved), reserved);
      if o.batch != [] {
        BatchOffered(s, coins, reserved);
        OfferedNow(before, e, o);
      }
    case (ForPrepare(o), Eligibility(eligible, prepared)) =>
      if prepared.Some? && PreparedBy(e, o, prepared.value) {
        PreparedNow(before, e, o, prepared.value);
      }
    case (ForTip(o, p), BestTip(tip, signed)) =>
      if tip == p.tip {
        assert TippedBy(events[n], p);
        if signed.Some? {
          BlockNow(before, e, o, p, signed.value);
        }
      }
    case (ForSubmit(blockHash), Receipt(hash)) =>
      if hash == Some(blockHash) {
        var raw :| BlockFor(before, Block(raw, blockHash));
        assert ReceivedBy(events[n], Block(raw, blockHash).hash);
      }
    case (_, _) =>
  }

  lemma OfferedNow(before: seq<Event>, e: Event, o: Offer)
    requires OfferedBy(e, o)
    ensures Offered(before + [e], o)
  {
    assert (before + [e])[|before|] == e;
  }

  lemma PreparedNow(before: seq<Event>, e: Event, o: Offer, p: Prepared)
    requires PreparedBy(e, o, p) && Offered(before, o)
    ensures PreparedFor(before + [e], o, p)
  {
    assert (before + [e])[|before|] == e && (before + [e])[..|before|] == before;
  }

  lemma BlockNow(before: seq<Event>, e: Event, o: Offer, p: Prepared, block: Block)
    requires TippedBy(e, p) && BlockBy(e, block) && PreparedFor(before, o, p)
    ensures BlockFor(before + [e], block)
  {
    hide PreparedFor;
    assert (before + [e])[|before|] == e && (before + [e])[..|before|] == before;
  }

  lemma ActionExplained(events: seq<Event>, a: Action, id: nat, g: Grounds)
    requires Grounded(a, id, g) && GroundsKnown(events, g)
    ensures Explained(events, a)
  {
    hide Offered, PreparedFor, SignedFor, BlockFor, Confirmed;
    if a.Called? && a.request.Prepare? {
      assert Offered(events, Offer(a.request.batch, g.offer.reserved));
    }
    if a.Called? && a.request.Submit? {
      assert BlockFor(events, Block(a.request.raw, g.block.value.hash));
    }
  }

  lemma WaitKnown(events: seq<Event>, at: Await, g: Grounds)
    requires WaitGrounded(at, g) && GroundsKnown(events, g)
    ensures Known(events, at)
  {
    hide Offered, PreparedFor, SignedFor, BlockFor, Confirmed;
    if at.ForSubmit? {
      assert BlockFor(events, Block(g.block.value.raw, at.blockHash));
    }
  }

  /** The session's log and its suspended ticks, explained by the events so far. */
  ghost predicate AllExplained(events: seq<Event>, s: State) {
    && (forall i :: 0 <= i < |s.log| ==> Explained(events, s.log[i].action))
    && (forall t :: t in s.pending ==> Known(events, s.pending[t].at))
  }

  lemma StepExplained(before: seq<Event>, s: State, e: Event)
    requires AllExplained(before, s)
    ensures AllExplained(before + [e], Step(s, e))
  {
    hide Step, Explained, Known, Grounded, WaitGrounded, Cause, GroundsKnown;
    StepFollows(s, e);
    var events, id, g, r := before + [e], StepId(s, e), StepGrounds(s, e), Step(s, e);
    assert GroundsKnown(events, g) by {
      GroundsOfStep(before, s, e);
    }
    forall i | 0 <= i < |r.log| ensures Explained(events, r.log[i].action) {
      if i < |s.log| {
        ExplainedLonger(before, e, s.log[i].action);
      } else {
        ActionExplained(events, r.log[i].action, id, g);
      }
    }
    forall t | t in r.pending ensures Known(events, r.pending[t].at) {
      if t in s.pending && r.pending[t] == s.pending[t] {
        KnownLonger(before, e, s.pending[t].at);
      } else {
        WaitKnown(events, r.pending[t].at, g);
      }
    }
  }

  lemma GroundsOfStep(before: seq<Event>, s: State, e: Event)
    requires AllExplained(before, s)
    ensures GroundsKnown(before + [e], StepGrounds(s, e))
  {
    hide Explained, Known, Cause;
    if e.Settled? && e.ticket in s.pending {
      CauseKnown(s, before, e, s.pending[e.ticket].at);
    }
  }

  /**
   In every run: what was asked to be prepared are usable coins of an earlier reply;
   what was signed is a template prepared for such coins, after the server
   named its tip as the best once more; what was submitted is a block signed
   then; and acceptance is published only after a receipt for such a block.
   */
  lemma {:induction false} RunExplained(events: seq<Event>)
    ensures AllExplained(events, Run(events))
  {
    if events == [] {
    } else {
      var init, e := events[..|events| - 1], events[|events| - 1];
      RunExplained(init);
      assert events == init + [e];
      hide Step, AllExplained;
      StepExplained(init, Run(init), e);
    }
  }
}
