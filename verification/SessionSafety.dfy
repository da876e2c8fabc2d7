/** What every run of the staking session keeps, in every interleaving. */
module SessionSafety {
  import opened Wrappers
  import opened SessionSpec

  // ---------------------------------------------------------------- the log

  predicate LastAsked(log: seq<Entry>, id: nat) {
    log != [] && log[|log| - 1].action == Asked(id, true)
  }

  /** The log ends with a passed check of `id`, followed by at most one publication. */
  predicate JustAllowed(log: seq<Entry>, id: nat) {
    && log != []
    && var last := log[|log| - 1].action;
    && (last == Asked(id, true) || (last.Published? && |log| >= 2 && log[|log| - 2].action == Asked(id, true)))
  }

  /**
   An entry that may follow `before`. Calls and signatures are those of the live
   generation, of an active session, with a signal not aborted, and directly after
   a check that allowed them. Progress is published by active sessions, and an error right
   after the publication of the stop that precedes it.
   */
  predicate GoodEntry(before: seq<Entry>, e: Entry) {
    match e.action
    case Asked(id, _) => e.active && e.generation == id
    case Called(id, _, aborted) => e.active && e.generation == id && !aborted && JustAllowed(before, id)
    case Signed(id, _, _, _) => e.active && e.generation == id && JustAllowed(before, id)
    case Published(Idle) => !e.active
    case Published(Failed) => !e.active && before != [] && before[|before| - 1].action == Published(Idle)
    case Published(_) => e.active
  }

  predicate GoodLog(log: seq<Entry>) {
    forall i :: 0 <= i < |log| ==> GoodEntry(log[..i], log[i])
  }

  // ---------------------------------------------------------------- the state

  /** No timer and no suspended tick carries the live generation. */
  predicate NoCarrier(s: State) {
    s.timers == map[] && forall t :: t in s.pending ==> s.pending[t].id != s.generation
  }

  predicate LiveTicket(s: State, t: nat) {
    t in s.pending && s.pending[t].id == s.generation
  }

  predicate Base(s: State) {
    && (forall t :: t in s.pending ==> s.pending[t].id <= s.generation && t < s.next)
    && (forall t, u :: t in s.pending && u in s.pending && s.pending[t].id == s.pending[u].id ==> t == u)
    && (forall h :: h in s.timers ==> h < s.next && s.active && s.timers[h] == s.generation && s.timer == Some(h))
    && (s.controller.Some? ==> s.controller.value < s.next)
    && (forall k :: k in s.aborted ==> k < s.next)
    && (s.active ==> s.controller.Some? && s.controller.value !in s.aborted)
    && GoodLog(s.log)
  }

  /** Between steps: exactly one carrier when active, none otherwise. */
  ghost predicate Inv(s: State) {
    && Base(s)
    && (!s.active ==> NoCarrier(s))
    && (s.active ==> ((s.timers != map[]) != (exists t :: LiveTicket(s, t))))
  }

  /** While a tick of `id` runs: it is itself the carrier if it is live. */
  ghost predicate Running(s: State, id: nat) {
    if s.generation == id then Base(s) && s.active && NoCarrier(s) else Inv(s)
  }

  // ---------------------------------------------------------------- each operation keeps them

  lemma NoteKeeps(s: State, a: Action)
    requires Base(s) && GoodEntry(s.log, Entry(a, s.generation, s.active))
    ensures Base(Note(s, a))
  {
    var e := Entry(a, s.generation, s.active);
    var log := s.log + [e];
    forall i | 0 <= i < |log| ensures GoodEntry(log[..i], log[i]) {
      assert log[..i] == s.log[..i];
    }
  }

  /** Stopping leaves nothing running, whatever was. */
  lemma StopKeeps(s: State)
    requires Base(s)
    ensures Inv(Stop(s)) && !Stop(s).active && Stop(s).generation == s.generation + 1
    ensures Stop(s).log != [] && Stop(s).log[|Stop(s).log| - 1].action == Published(Idle)
  {
    hide GoodLog;
    var stopped := s.(active := false, generation := s.generation + 1,
                      aborted := s.aborted + (if s.controller.Some? then {s.controller.value} else {}),
                      timers := if s.timer.Some? then s.timers - {s.timer.value} else s.timers);
    assert stopped.timers == map[];
    NoteKeeps(stopped, Published(Idle));
  }

  lemma CurrentKeeps(s: State, id: nat, allowed: bool)
    requires Running(s, id)
    ensures var (checked, ok) := Current(s, id, allowed);
            if ok then Running(checked, id) && checked.generation == id && LastAsked(checked.log, id)
            else Inv(checked) && checked.generation != id
  {
    hide GoodLog;
    if s.active && s.generation == id {
      NoteKeeps(s, Asked(id, allowed));
      if !allowed {
        StopKeeps(Note(s, Asked(id, false)));
      }
    }
  }

  lemma FailKeeps(s: State, id: nat)
    requires Running(s, id)
    ensures Inv(Fail(s, id))
  {
    hide GoodLog;
    if s.generation == id {
      StopKeeps(s);
      NoteKeeps(Stop(s), Published(Failed));
    }
  }

  /** A publication by a live tick keeps the check just made fresh. */
  lemma PublishKeeps(s: State, id: nat, phase: Phase)
    requires Running(s, id) && s.generation == id && phase != Idle && phase != Failed
    ensures Running(Note(s, Published(phase)), id)
    ensures LastAsked(s.log, id) ==> JustAllowed(Note(s, Published(phase)).log, id)
  {
    hide GoodLog;
    NoteKeeps(s, Published(phase));
  }

  lemma CallKeeps(s: State, id: nat, request: Request, at: Await)
    requires Running(s, id) && s.generation == id && JustAllowed(s.log, id)
    ensures Inv(Call(s, id, request, at))
  {
    hide GoodLog;
    var a := Called(id, request, s.controller.value in s.aborted);
    NoteKeeps(s, a);
    var called := Call(s, id, request, at);
    assert LiveTicket(called, s.next);
  }

  lemma RearmKeeps(s: State, id: nat, allowed: bool)
    requires Running(s, id)
    ensures Inv(Rearm(s, id, allowed))
  {
    hide GoodLog;
    CurrentKeeps(s, id, allowed);
    var (checked, ok) := Current(s, id, allowed);
    if ok {
      assert checked.next in Rearm(s, id, allowed).timers;
    }
  }

  lemma TickKeeps(s: State, id: nat, allowed: bool)
    requires Running(s, id)
    ensures Inv(Tick(s, id, allowed))
  {
    hide GoodLog;
    CurrentKeeps(s, id, allowed);
    var (checked, ok) := Current(s, id, allowed);
    if ok {
      PublishKeeps(checked, id, Checking);
      CallKeeps(Note(checked, Published(Checking)), id, Candidates, ForCandidates);
    }
  }

  lemma AfterCandidatesKeeps(s: State, id: nat, coins: seq<Coin>, reserved: set<(string, nat)>, allowed: bool, again: bool)
    requires Running(s, id)
    ensures Inv(AfterCandidates(s, id, coins, reserved, allowed, again))
  {
    hide GoodLog;
    CurrentKeeps(s, id, allowed);
    var (checked, ok) := Current(s, id, allowed);
    if ok {
      var usable := Allowed(coins, reserved);
      var batch := usable[BatchStart(s.offset, |usable|)..BatchEnd(s.offset, |usable|)];
      var moved := checked.(offset := BatchEnd(s.offset, |usable|));
      if batch != [] {
        CallKeeps(moved, id, Prepare(batch), ForPrepare(Offer(batch, reserved)));
      } else {
        PublishKeeps(moved, id, Waiting);
        RearmKeeps(Note(moved, Published(Waiting)), id, again);
      }
    }
  }

  lemma AfterPrepareKeeps(s: State, id: nat, o: Offer, eligible: Option<int>, prepared: Option<Prepared>, allowed: bool, again: bool)
    requires Running(s, id)
    ensures Inv(AfterPrepare(s, id, o, eligible, prepared, allowed, again))
  {
    hide GoodLog;
    CurrentKeeps(s, id, allowed);
    var (checked, ok) := Current(s, id, allowed);
    if ok {
      FailKeeps(checked, id);
      PublishKeeps(checked, id, Waiting);
      var waiting := Note(checked, Published(Waiting));
      if prepared.Some? {
        CallKeeps(waiting, id, Tip, ForTip(o, prepared.value));
      } else {
        RearmKeeps(waiting, id, again);
      }
    }
  }

  lemma AfterTipKeeps(s: State, id: nat, o: Offer, p: Prepared, tip: Option<string>, signed: Option<Block>, allowed: bool, again: bool)
    requires Running(s, id)
    ensures Inv(AfterTip(s, id, o, p, tip, signed, allowed, again))
  {
    hide GoodLog;
    CurrentKeeps(s, id, allowed);
    var (checked, ok) := Current(s, id, allowed);
    if ok {
      RearmKeeps(checked, id, again);
      PublishKeeps(checked, id, Signing);
      var published := Note(checked, Published(Signing));
      NoteKeeps(published, Signed(id, p.template, o, p.tip));
      var signing := Note(published, Signed(id, p.template, o, p.tip));
      FailKeeps(signing, id);
      if signed.Some? {
        SubmitKeeps(signing, id, signed.value, again);
      }
    }
  }

  lemma SubmitKeeps(s: State, id: nat, block: Block, again: bool)
    requires Running(s, id)
    ensures var (checked, ok) := Current(s, id, again);
            Inv(if ok then Call(Note(checked, Published(Submitting)), id, Submit(block.raw), ForSubmit(block.hash)) else checked)
  {
    hide GoodLog;
    CurrentKeeps(s, id, again);
    var (checked, ok) := Current(s, id, again);
    if ok {
      PublishKeeps(checked, id, Submitting);
      CallKeeps(Note(checked, Published(Submitting)), id, Submit(block.raw), ForSubmit(block.hash));
    }
  }

  lemma AfterSubmitKeeps(s: State, id: nat, blockHash: string, hash: Option<string>, allowed: bool, again: bool)
    requires Running(s, id)
    ensures Inv(AfterSubmit(s, id, blockHash, hash, allowed, again))
  {
    hide GoodLog;
    CurrentKeeps(s, id, allowed);
    var (checked, ok) := Current(s, id, allowed);
    if ok {
      FailKeeps(checked, id);
      PublishKeeps(checked, id, Accepted);
      RearmKeeps(Note(checked, Published(Accepted)), id, again);
    }
  }

  lemma AfterMalformedKeeps(s: State, id: nat, allowed: bool)
    requires Running(s, id)
    ensures Inv(AfterMalformed(s, id, allowed))
  {
    hide GoodLog;
    CurrentKeeps(s, id, allowed);
    var (checked, ok) := Current(s, id, allowed);
    if ok {
      FailKeeps(checked, id);
    }
  }

  lemma ResumeKeeps(s: State, k: Continuation, reply: Reply, allowed: bool, again: bool)
    requires Running(s, k.id)
    ensures Inv(Resume(s, k, reply, allowed, again))
  {
    hide Inv, Running, AfterCandidates, AfterPrepare, AfterTip, AfterSubmit, AfterMalformed, Fail;
    match (k.at, reply)
    case (_, Rejected) => FailKeeps(s, k.id);
    case (ForCandidates, Nothing) => FailKeeps(s, k.id);
    case (ForCandidates, CoinList(coins, reserved)) => AfterCandidatesKeeps(s, k.id, coins, reserved, allowed, again);
    case (ForCandidates, _) => AfterMalformedKeeps(s, k.id, allowed);
    case (ForPrepare(o), Eligibility(eligible, prepared)) => AfterPrepareKeeps(s, k.id, o, eligible, prepared, allowed, again);
    case (ForPrepare(o), _) => AfterPrepareKeeps(s, k.id, o, None, None, allowed, again);
    case (ForTip(o, p), BestTip(tip, signed)) => AfterTipKeeps(s, k.id, o, p, Some(tip), signed, allowed, again);
    case (ForTip(o, p), _) => AfterTipKeeps(s, k.id, o, p, None, None, allowed, again);
    case (ForSubmit(blockHash), Receipt(hash)) => AfterSubmitKeeps(s, k.id, blockHash, hash, allowed, again);
    case (ForSubmit(blockHash), _) => AfterSubmitKeeps(s, k.id, blockHash, None, allowed, again);
  }

  // ---------------------------------------------------------------- runs

  /** Taking a timer or a suspended tick off the queue makes it the running one. */
  lemma FiredRuns(s: State, handle: nat)
    requires Inv(s) && handle in s.timers
    ensures Running(s.(timers := s.timers - {handle}), s.timers[handle]) && s.timers[handle] == s.generation
  {
    hide GoodLog;
    assert s.timers - {handle} == map[];
    forall t | t in s.pending ensures !LiveTicket(s, t) {}
  }

  lemma SettledRuns(s: State, ticket: nat)
    requires Inv(s) && ticket in s.pending
    ensures Running(s.(pending := s.pending - {ticket}), s.pending[ticket].id)
  {
    hide GoodLog;
    var rest := s.(pending := s.pending - {ticket});
    if s.pending[ticket].id == s.generation {
      assert LiveTicket(s, ticket);
      assert s.timers == map[];
    } else if s.active {
      if t :| LiveTicket(s, t) {
        assert LiveTicket(rest, t);
      }
      forall t | LiveTicket(rest, t) ensures LiveTicket(s, t) {}
    }
  }

  lemma StartRuns(s: State)
    requires Inv(s) && !s.active
    ensures Running(Started(s), Started(s).generation)
  {
    hide GoodLog;
  }

  lemma StepKeeps(s: State, e: Event)
    requires Inv(s)
    ensures Inv(Step(s, e))
  {
    match e
    case StartCalled(asked, allowed) =>
      if !s.active && asked {
        StartRuns(s);
        TickKeeps(Started(s), Started(s).generation, allowed);
      }
    case StopCalled => StopKeeps(s);
    case TimerFired(handle, allowed) =>
      if handle in s.timers {
        FiredRuns(s, handle);
        TickKeeps(s.(timers := s.timers - {handle}), s.timers[handle], allowed);
      }
    case Settled(ticket, reply, allowed, again) =>
      if ticket in s.pending {
        SettledRuns(s, ticket);
        ResumeKeeps(s.(pending := s.pending - {ticket}), s.pending[ticket], reply, allowed, again);
      }
  }

  /**
   Every run keeps the invariant: at most one carrier per generation and exactly
   one for an active session, calls and signatures only for the live generation
   directly after a check, signals never aborted.
   */
  lemma {:induction false} RunSafe(events: seq<Event>)
    ensures Inv(Run(events))
  {
    if events == [] {
    } else {
      RunSafe(events[..|events| - 1]);
      StepKeeps(Run(events[..|events| - 1]), events[|events| - 1]);
    }
  }

  /** Started and allowed, the first tick waits for candidates with a fresh signal; not allowed, the session stops again. */
  lemma StartTicks(s: State, allowed: bool)
    requires Inv(s) && !s.active
    ensures var r := Start(s, true, allowed);
            if allowed then
              && r.active && r.generation == s.generation + 1 && r.offset == 0
              && r.controller == Some(s.next) && s.next !in r.aborted && r.timers == map[]
              && r.pending == s.pending[s.next + 1 := Continuation(r.generation, ForCandidates)] && s.next + 1 !in s.pending
            else !r.active
  {
    hide GoodLog;
  }

  /** A suspended tick of an older generation does nothing at all when it resumes. */
  lemma StaleResumptionSilent(s: State, ticket: nat, reply: Reply, allowed: bool, again: bool)
    requires ticket in s.pending && s.pending[ticket].id != s.generation
    ensures Step(s, Settled(ticket, reply, allowed, again)) == s.(pending := s.pending - {ticket})
  {
  }

  /** What `start` makes of a session before its first tick. */
  function Started(s: State): State {
    s.(active := true, offset := 0, controller := Some(s.next), next := s.next + 1, generation := s.generation + 1)
  }

  /** The `stop()` that `tick` falls back on when its first check fails is never reached, by a timer or from `start`. */
  lemma FallbackUnreachable(events: seq<Event>, handle: nat, allowed: bool)
    ensures var s := Run(events);
            handle in s.timers ==>
              var (checked, ok) := Current(s.(timers := s.timers - {handle}), s.timers[handle], allowed);
              ok || checked.generation != s.timers[handle]
    ensures var s := Run(events);
            !s.active ==>
              var (checked, ok) := Current(Started(s), Started(s).generation, allowed);
              ok || checked.generation != Started(s).generation
  {
    hide Run, GoodLog;
    RunSafe(events);
    var s := Run(events);
    if handle in s.timers {
      FiredRuns(s, handle);
      CurrentKeeps(s.(timers := s.timers - {handle}), s.timers[handle], allowed);
    }
    if !s.active {
      StartRuns(s);
      CurrentKeeps(Started(s), Started(s).generation, allowed);
    }
  }

  predicate Passive(e: Event) {
    e.TimerFired? || e.Settled?
  }

  lemma PassiveStep(s: State, e: Event)
    requires Inv(s) && !s.active && Passive(e)
    ensures Step(s, e).log == s.log && !Step(s, e).active
  {
    if e.Settled? && e.ticket in s.pending {
      StaleResumptionSilent(s, e.ticket, e.reply, e.allowed, e.again);
    }
  }

  lemma HandledSilently(s: State, e: Event)
    requires Inv(s)
    ensures e.Settled? && e.ticket in s.pending && s.pending[e.ticket].id != s.generation ==>
              Step(s, e) == s.(pending := s.pending - {e.ticket})
    ensures !s.active && Passive(e) ==> Step(s, e).log == s.log && !Step(s, e).active
  {
    hide Step, Inv;
    if e.Settled? && e.ticket in s.pending && s.pending[e.ticket].id != s.generation {
      StaleResumptionSilent(s, e.ticket, e.reply, e.allowed, e.again);
    }
    if !s.active && Passive(e) {
      PassiveStep(s, e);
    }
  }

  /** Once stopped, a session does nothing and publishes nothing until it is started again. */
  lemma {:induction false} SilentOnceStopped(events: seq<Event>, more: seq<Event>)
    requires !Run(events).active && forall i :: 0 <= i < |more| ==> Passive(more[i])
    ensures Run(events + more).log == Run(events).log && !Run(events + more).active
  {
    if more == [] {
      assert events + more == events;
    } else {
      var last := |more| - 1;
      SilentOnceStopped(events, more[..last]);
      assert (events + more)[..|events + more| - 1] == events + more[..last];
      RunSafe(events + more[..last]);
      PassiveStep(Run(events + more[..last]), more[last]);
    }
  }

  // ---------------------------------------------------------------- fair rotation

  /** The offset after `rounds` batches over an unchanging list of `count` coins. */
  function OffsetAfter(offset: nat, count: nat, rounds: nat): nat
    decreases rounds
  {
    if rounds == 0 then offset else OffsetAfter(BatchEnd(offset, count), count, rounds - 1)
  }

  predicate Covers(offset: nat, count: nat, coin: nat) {
    BatchStart(offset, count) <= coin < BatchEnd(offset, count)
  }

  lemma {:induction false} Ahead(offset: nat, count: nat, coin: nat) returns (rounds: nat)
    requires coin < count && BatchStart(offset, count) <= coin
    ensures rounds <= (coin - BatchStart(offset, count)) / BATCH && Covers(OffsetAfter(offset, count, rounds), count, coin)
    decreases count - BatchStart(offset, count)
  {
    if Covers(offset, count, coin) {
      rounds := 0;
    } else {
      var more := Ahead(BatchEnd(offset, count), count, coin);
      rounds := more + 1;
    }
  }

  lemma {:induction false} Wrap(offset: nat, count: nat, coin: nat) returns (rounds: nat)
    requires coin < offset <= count
    ensures rounds <= (count - offset + BATCH - 1) / BATCH + coin / BATCH && Covers(OffsetAfter(offset, count, rounds), count, coin)
    decreases count - offset
  {
    if offset == count {
      rounds := Ahead(offset, count, coin);
    } else {
      var more := Wrap(BatchEnd(offset, count), count, coin);
      rounds := more + 1;
    }
  }

  /** No coin waits for more than one pass over the list: every coin is in one of the next count/128 (rounded up) + 1 batches. */
  lemma EveryCoinComesUp(offset: nat, count: nat, coin: nat) returns (rounds: nat)
    requires coin < count
    ensures rounds <= (count + 127) / 128 && Covers(OffsetAfter(offset, count, rounds), count, coin)
  {
    if BatchStart(offset, count) <= coin {
      rounds := Ahead(offset, count, coin);
    } else {
      rounds := Wrap(offset, count, coin);
    }
  }
}
