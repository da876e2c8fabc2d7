/** The session object, refining the state machine operation by operation and keeping its invariant. */
module StakingSession {
  import opened Wrappers
  import Spec = SessionSpec
  import Safety = SessionSafety
  import Causes = SessionCauses

  class Session {
    var generation: nat
    var controller: Option<nat>
    var timer: Option<nat>
    var active: bool
    var offset: nat
    // The environment: aborted controllers, the next ticket, suspended ticks, timers, and the log.
    var aborted: set<nat>
    var next: nat
    var pending: map<nat, Spec.Continuation>
    var timers: map<nat, nat>
    var log: seq<Spec.Entry>

    ghost function State(): Spec.State
      reads this
    {
      Spec.State(generation, controller, timer, active, offset, aborted, next, pending, timers, log)
    }

    /** Between events: exactly one timer or suspended tick carries the generation of an active session, none otherwise. */
    ghost predicate Valid()
      reads this
    {
      Safety.Inv(State())
    }

    constructor ()
      ensures Valid() && State() == Spec.INITIAL
    {
      generation, controller, timer, active, offset := 0, None, None, false, 0;
      aborted, next, pending, timers, log := {}, 0, map[], map[], [];
    }

    method Note(a: Spec.Action)
      modifies this
      ensures State() == Spec.Note(old(State()), a)
    {
      log := log + [Spec.Entry(a, generation, active)];
    }

    method Publish(phase: Spec.Phase)
      modifies this
      ensures State() == Spec.Note(old(State()), Spec.Published(phase))
    {
      Note(Spec.Published(phase));
    }

    /**
     Nothing of a stopped session is alive: no timer, no suspended tick that will
     do anything, and a signal that is aborted.
     */
    method Stop()
      modifies this
      ensures State() == Spec.Stop(old(State()))
      ensures old(Safety.Base(State())) ==> Valid() && timers == map[] && forall t :: t in pending ==> pending[t].id < generation
      ensures !active && controller == old(controller) && (controller.Some? ==> controller.value in aborted)
      ensures log == old(log) + [Spec.Entry(Spec.Published(Spec.Idle), old(generation) + 1, false)]
    {
      hide Safety.GoodLog;
      if Safety.Base(State()) {
        Safety.StopKeeps(State());
      }
      active := false;
      generation := generation + 1;
      if controller.Some? {
        aborted := aborted + {controller.value};
      }
      if timer.Some? {
        timers := timers - {timer.value};
      }
      assert aborted == old(aborted) + (if controller.Some? then {controller.value} else {});
      Publish(Spec.Idle);
    }

    method Current(id: nat, allowed: bool) returns (ok: bool)
      modifies this
      ensures (State(), ok) == Spec.Current(old(State()), id, allowed)
    {
      if !active || generation != id {
        return false;
      }
      Note(Spec.Asked(id, allowed));
      if !allowed {
        Stop();
        return false;
      }
      ok := true;
    }

    method Fail(id: nat)
      modifies this
      ensures State() == Spec.Fail(old(State()), id)
    {
      if generation != id {
        return;
      }
      Stop();
      Publish(Spec.Failed);
    }

    method Call(id: nat, request: Spec.Request, at: Spec.Await)
      modifies this
      ensures State() == Spec.Call(old(State()), id, request, at)
    {
      if controller.None? {
        Fail(id);
        return;
      }
      Note(Spec.Called(id, request, controller.value in aborted));
      pending := pending[next := Spec.Continuation(id, at)];
      next := next + 1;
    }

    method Rearm(id: nat, allowed: bool)
      modifies this
      ensures State() == Spec.Rearm(old(State()), id, allowed)
    {
      var ok := Current(id, allowed);
      if ok {
        timers := timers[next := id];
        timer := Some(next);
        next := next + 1;
      }
    }

    method Tick(id: nat, allowed: bool)
      modifies this
      ensures State() == Spec.Tick(old(State()), id, allowed)
    {
      var ok := Current(id, allowed);
      if !ok {
        if generation == id {
          Stop();
        }
        return;
      }
      Publish(Spec.Checking);
      Call(id, Spec.Candidates, Spec.ForCandidates);
    }

    method AfterCandidates(id: nat, coins: seq<Spec.Coin>, reserved: set<(string, nat)>, allowed: bool, again: bool)
      modifies this
      ensures State() == Spec.AfterCandidates(old(State()), id, coins, reserved, allowed, again)
    {
      var ok := Current(id, allowed);
      if !ok {
        return;
      }
      var usable := Spec.Allowed(coins, reserved);
      if offset >= |usable| {
        offset := 0;
      }
      var batch := usable[offset..if offset + Spec.BATCH < |usable| then offset + Spec.BATCH else |usable|];
      offset := offset + |batch|;
      if |batch| > 0 {
        Call(id, Spec.Prepare(batch), Spec.ForPrepare(Spec.Offer(batch, reserved)));
      } else {
        Publish(Spec.Waiting);
        Rearm(id, again);
      }
    }

    method AfterMalformed(id: nat, allowed: bool)
      modifies this
      ensures State() == Spec.AfterMalformed(old(State()), id, allowed)
    {
      var ok := Current(id, allowed);
      if ok {
        Fail(id);
      }
    }

    method AfterPrepare(id: nat, o: Spec.Offer, eligible: Option<int>, prepared: Option<Spec.Prepared>, allowed: bool, again: bool)
      modifies this
      ensures State() == Spec.AfterPrepare(old(State()), id, o, eligible, prepared, allowed, again)
    {
      var ok := Current(id, allowed);
      if !ok {
        return;
      }
      if eligible.None? || eligible.value < 0 || eligible.value > |o.batch| {
        Fail(id);
        return;
      }
      Publish(Spec.Waiting);
      if prepared.Some? {
        Call(id, Spec.Tip, Spec.ForTip(o, prepared.value));
      } else {
        Rearm(id, again);
      }
    }

    method AfterTip(id: nat, o: Spec.Offer, p: Spec.Prepared, tip: Option<string>, signed: Option<Spec.Block>, allowed: bool, again: bool)
      modifies this
      ensures State() == Spec.AfterTip(old(State()), id, o, p, tip, signed, allowed, again)
    {
      var ok := Current(id, allowed);
      if !ok {
        return;
      }
      if tip != Some(p.tip) {
        Rearm(id, again);
        return;
      }
      Publish(Spec.Signing);
      Note(Spec.Signed(id, p.template, o, p.tip));
      if signed.None? {
        Fail(id);
        return;
      }
      ok := Current(id, again);
      if !ok {
        return;
      }
      Publish(Spec.Submitting);
      Call(id, Spec.Submit(signed.value.raw), Spec.ForSubmit(signed.value.hash));
    }

    method AfterSubmit(id: nat, blockHash: string, hash: Option<string>, allowed: bool, again: bool)
      modifies this
      ensures State() == Spec.AfterSubmit(old(State()), id, blockHash, hash, allowed, again)
    {
      var ok := Current(id, allowed);
      if !ok {
        return;
      }
      if hash != Some(blockHash) {
        Fail(id);
        return;
      }
      Publish(Spec.Accepted);
      Rearm(id, again);
    }

    method Resume(k: Spec.Continuation, reply: Spec.Reply, allowed: bool, again: bool)
      modifies this
      ensures State() == Spec.Resume(old(State()), k, reply, allowed, again)
    {
      hide Spec.AfterCandidates, Spec.AfterMalformed, Spec.AfterPrepare, Spec.AfterTip, Spec.AfterSubmit, Spec.Fail;
      match (k.at, reply)
      case (_, Rejected) => Fail(k.id);
      case (ForCandidates, Nothing) => Fail(k.id);
      case (ForCandidates, CoinList(coins, reserved)) => AfterCandidates(k.id, coins, reserved, allowed, again);
      case (ForCandidates, _) => AfterMalformed(k.id, allowed);
      case (ForPrepare(o), Eligibility(eligible, prepared)) => AfterPrepare(k.id, o, eligible, prepared, allowed, again);
      case (ForPrepare(o), _) => AfterPrepare(k.id, o, None, None, allowed, again);
      case (ForTip(o, p), BestTip(tip, signed)) => AfterTip(k.id, o, p, Some(tip), signed, allowed, again);
      case (ForTip(o, p), _) => AfterTip(k.id, o, p, None, None, allowed, again);
      case (ForSubmit(blockHash), Receipt(hash)) => AfterSubmit(k.id, blockHash, hash, allowed, again);
      case (ForSubmit(blockHash), _) => AfterSubmit(k.id, blockHash, None, allowed, again);
    }

    /**
     An active session goes on as it was. Otherwise, if signing is allowed, one tick
     of a new generation waits for candidates with a fresh signal, and nothing else
     is alive; if it is not, the session is stopped again.
     */
    method Start(asked: bool, allowed: bool)
      requires Valid()
      modifies this
      ensures Valid() && State() == Spec.Start(old(State()), asked, allowed)
      ensures old(active) || !asked ==> State() == old(State())
      ensures !old(active) && asked && allowed ==>
        && active && generation == old(generation) + 1 && offset == 0
        && controller == Some(old(next)) && old(next) !in aborted
        && timers == map[] && pending == old(pending)[old(next) + 1 := Spec.Continuation(generation, Spec.ForCandidates)]
      ensures !old(active) && asked && !allowed ==> !active
    {
      hide Safety.Inv, Spec.Tick;
      Safety.StepKeeps(State(), Spec.StartCalled(asked, allowed));
      if active || !asked {
        return;
      }
      Safety.StartTicks(State(), allowed);
      active := true;
      offset := 0;
      controller := Some(next);
      next := next + 1;
      generation := generation + 1;
      Tick(generation, allowed);
    }

    /**
     The environment's turn: one event of a run. The log only grows, and everything
     new in it answers the event: it signs only on the expected tip, submits only
     what it signed, and publishes acceptance only for the receipt of that. A
     tick of an older generation does nothing; a stopped session stays silent.
     */
    method Handle(e: Spec.Event)
      requires Valid()
      modifies this
      ensures Valid() && State() == Spec.Step(old(State()), e)
      ensures Causes.Follows(old(State()), State(), Causes.StepId(old(State()), e), Causes.StepGrounds(old(State()), e))
      ensures forall i :: |old(log)| <= i < |log| ==> Causes.Answers(old(State()), e, log[i].action)
      ensures e.Settled? && e.ticket in old(pending) && old(pending[e.ticket].id != generation) ==>
        State() == old(State()).(pending := old(pending) - {e.ticket})
      ensures !old(active) && Safety.Passive(e) ==> !active && log == old(log)
      ensures e.StopCalled? ==> !active
    {
      hide Safety.Inv, Causes.Follows, Causes.StepId, Causes.StepGrounds, Causes.Answers, Spec.Tick, Spec.Resume, Spec.Start, Spec.Stop;
      Safety.StepKeeps(State(), e);
      Causes.StepFollows(State(), e);
      Causes.AllAnswer(State(), e);
      Safety.HandledSilently(State(), e);
      match e
      case StartCalled(asked, allowed) => Start(asked, allowed);
      case StopCalled => Stop();
      case TimerFired(handle, allowed) =>
        if handle in timers {
          var id := timers[handle];
          timers := timers - {handle};
          Tick(id, allowed);
        }
      case Settled(ticket, reply, allowed, again) =>
        if ticket in pending {
          var k := pending[ticket];
          pending := pending - {ticket};
          Resume(k, reply, allowed, again);
        }
    }
  }
}
