/**
 The staking session as a state machine. Code between two awaits runs to
 completion, so a step is one such stretch: a call of `start` or `stop`, a timer
 firing, or a promise settling. What the environment answers (whether signing is
 allowed at each check, every reply and its timing) is arbitrary. The log records
 what the session does and the state it does it in.
 */
module SessionSpec {
  import opened Wrappers

  datatype Coin = Coin(txid: string, vout: nat, confirmations: int)

  /** The coins a tick offers for staking, and the outpoints it may not touch. */
  datatype Offer = Offer(batch: seq<Coin>, reserved: set<(string, nat)>)

  /** A prepared block, named by the server's data, and the tip it builds on. */
  datatype Prepared = Prepared(template: string, tip: string)

  datatype Phase = Idle | Checking | Waiting | Signing | Submitting | Accepted | Failed

  datatype Request = Candidates | Prepare(batch: seq<Coin>) | Tip | Submit(raw: string)

  /** What a suspended tick waits for, and what it has kept. */
  datatype Await =
    | ForCandidates
    | ForPrepare(offer: Offer)
    | ForTip(offer: Offer, prepared: Prepared)
    | ForSubmit(blockHash: string)

  datatype Block = Block(raw: string, hash: string)

  /** A settled promise; `Nothing` is null or undefined. `signed` is what signing would return, None where it throws. */
  datatype Reply =
    | Rejected
    | Nothing
    | CoinList(coins: seq<Coin>, reserved: set<(string, nat)>)
    | Eligibility(eligible: Option<int>, prepared: Option<Prepared>)
    | BestTip(tip: string, signed: Option<Block>)
    | Receipt(hash: Option<string>)

  datatype Action =
    | Asked(id: nat, allowed: bool)
    | Published(phase: Phase)
    | Called(id: nat, request: Request, aborted: bool)
    | Signed(id: nat, template: string, offer: Offer, tip: string)

  /** An action, and the session's generation and activity when it happens. */
  datatype Entry = Entry(action: Action, generation: nat, active: bool)

  /** A suspended tick: its id, its await and the controller whose signal it passed. */
  datatype Continuation = Continuation(id: nat, at: Await)

  /** Controllers are numbered; `pending` and `timers` are the environment's, keyed by ticket. */
  datatype State = State(
    generation: nat,
    controller: Option<nat>,
    timer: Option<nat>,
    active: bool,
    offset: nat,
    aborted: set<nat>,
    next: nat,
    pending: map<nat, Continuation>,
    timers: map<nat, nat>,
    log: seq<Entry>)

  const INITIAL := State(0, None, None, false, 0, {}, 0, map[], map[], [])

  const BATCH := 128

  // ---------------------------------------------------------------- the session's own operations

  function Note(s: State, a: Action): State {
    s.(log := s.log + [Entry(a, s.generation, s.active)])
  }

  /** `stop`. */
  function Stop(s: State): State {
    var stopped := s.(active := false, generation := s.generation + 1,
                      aborted := s.aborted + (if s.controller.Some? then {s.controller.value} else {}),
                      timers := if s.timer.Some? then s.timers - {s.timer.value} else s.timers);
    Note(stopped, Published(Idle))
  }

  /** `current`: the state after the check and its answer. */
  function Current(s: State, id: nat, allowed: bool): (State, bool) {
    if !s.active || s.generation != id then (s, false)
    else if !allowed then (Stop(Note(s, Asked(id, false))), false)
    else (Note(s, Asked(id, true)), true)
  }

  /** The `catch` block. */
  function Fail(s: State, id: nat): State {
    if s.generation != id then s else Note(Stop(s), Published(Failed))
  }

  /** A call with the controller's signal, and the suspension on its promise. */
  function Call(s: State, id: nat, request: Request, at: Await): State {
    match s.controller
    case None => Fail(s, id)
    case Some(controller) =>
      var called := Note(s, Called(id, request, controller in s.aborted));
      called.(pending := called.pending[s.next := Continuation(id, at)], next := s.next + 1)
  }

  /** The end of a tick: the next one is scheduled. */
  function Rearm(s: State, id: nat, allowed: bool): State {
    var (checked, ok) := Current(s, id, allowed);
    if ok then checked.(timers := checked.timers[checked.next := id], timer := Some(checked.next), next := checked.next + 1)
    else checked
  }

  /** The start of `tick`. */
  function Tick(s: State, id: nat, allowed: bool): State {
    var (checked, ok) := Current(s, id, allowed);
    if ok then Call(Note(checked, Published(Checking)), id, Candidates, ForCandidates)
    else if checked.generation == id then Stop(checked)
    else checked
  }

  function Allowed(coins: seq<Coin>, reserved: set<(string, nat)>): seq<Coin> {
    if coins == [] then []
    else if coins[0].confirmations > 0 && (coins[0].txid, coins[0].vout) !in reserved
    then [coins[0]] + Allowed(coins[1..], reserved)
    else Allowed(coins[1..], reserved)
  }

  function BatchStart(offset: nat, count: nat): (start: nat)
    ensures start <= count
  {
    if offset >= count then 0 else offset
  }

  function BatchEnd(offset: nat, count: nat): (end: nat)
    ensures BatchStart(offset, count) <= end <= count
  {
    if BatchStart(offset, count) + BATCH < count then BatchStart(offset, count) + BATCH else count
  }

  function AfterCandidates(s: State, id: nat, coins: seq<Coin>, reserved: set<(string, nat)>, allowed: bool, again: bool): State {
    var (checked, ok) := Current(s, id, allowed);
    if !ok then checked
    else
      var usable := Allowed(coins, reserved);
      var batch := usable[BatchStart(s.offset, |usable|)..BatchEnd(s.offset, |usable|)];
      var moved := checked.(offset := BatchEnd(s.offset, |usable|));
      if batch != [] then Call(moved, id, Prepare(batch), ForPrepare(Offer(batch, reserved)))
      else Rearm(Note(moved, Published(Waiting)), id, again)
  }

  function AfterPrepare(s: State, id: nat, o: Offer, eligible: Option<int>, prepared: Option<Prepared>, allowed: bool, again: bool): State {
    var (checked, ok) := Current(s, id, allowed);
    if !ok then checked
    else if eligible.None? || eligible.value < 0 || eligible.value > |o.batch| then Fail(checked, id)
    else
      var waiting := Note(checked, Published(Waiting));
      match prepared
      case None => Rearm(waiting, id, again)
      case Some(p) => Call(waiting, id, Tip, ForTip(o, p))
  }

  function AfterTip(s: State, id: nat, o: Offer, p: Prepared, tip: Option<string>, signed: Option<Block>, allowed: bool, again: bool): State {
    var (checked, ok) := Current(s, id, allowed);
    if !ok then checked
    else if tip != Some(p.tip) then Rearm(checked, id, again)
    else
      var signing := Note(Note(checked, Published(Signing)), Signed(id, p.template, o, p.tip));
      match signed
      case None => Fail(signing, id)
      case Some(block) =>
        var (rechecked, still) := Current(signing, id, again);
        if !still then rechecked
        else Call(Note(rechecked, Published(Submitting)), id, Submit(block.raw), ForSubmit(block.hash))
  }

  function AfterSubmit(s: State, id: nat, blockHash: string, hash: Option<string>, allowed: bool, again: bool): State {
    var (checked, ok) := Current(s, id, allowed);
    if !ok then checked
    else if hash != Some(blockHash) then Fail(checked, id)
    else Rearm(Note(checked, Published(Accepted)), id, again)
  }

  /** A candidates reply that cannot be filtered throws after the check that follows the await. */
  function AfterMalformed(s: State, id: nat, allowed: bool): State {
    var (checked, ok) := Current(s, id, allowed);
    if ok then Fail(checked, id) else checked
  }

  /** A suspended tick goes on. A reply of another kind has none of the fields that are looked up in it. */
  function Resume(s: State, k: Continuation, reply: Reply, allowed: bool, again: bool): State {
    match (k.at, reply)
    case (_, Rejected) => Fail(s, k.id)
    case (ForCandidates, Nothing) => Fail(s, k.id)
    case (ForCandidates, CoinList(coins, reserved)) => AfterCandidates(s, k.id, coins, reserved, allowed, again)
    case (ForCandidates, _) => AfterMalformed(s, k.id, allowed)
    case (ForPrepare(o), Eligibility(eligible, prepared)) => AfterPrepare(s, k.id, o, eligible, prepared, allowed, again)
    case (ForPrepare(o), _) => AfterPrepare(s, k.id, o, None, None, allowed, again)
    case (ForTip(o, p), BestTip(tip, signed)) => AfterTip(s, k.id, o, p, Some(tip), signed, allowed, again)
    case (ForTip(o, p), _) => AfterTip(s, k.id, o, p, None, None, allowed, again)
    case (ForSubmit(blockHash), Receipt(hash)) => AfterSubmit(s, k.id, blockHash, hash, allowed, again)
    case (ForSubmit(blockHash), _) => AfterSubmit(s, k.id, blockHash, None, allowed, again)
  }

  /** `start`: `asked` answers its own check, `allowed` the one the first tick makes. */
  function Start(s: State, asked: bool, allowed: bool): State {
    if s.active || !asked then s
    else
      var started := s.(active := true, offset := 0, controller := Some(s.next), next := s.next + 1, generation := s.generation + 1);
      Tick(started, started.generation, allowed)
  }

  // ---------------------------------------------------------------- runs

  datatype Event =
    | StartCalled(asked: bool, allowed: bool)
    | StopCalled
    | TimerFired(handle: nat, allowed: bool)
    | Settled(ticket: nat, reply: Reply, allowed: bool, again: bool)

  function Step(s: State, e: Event): State {
    match e
    case StartCalled(asked, allowed) => Start(s, asked, allowed)
    case StopCalled => Stop(s)
    case TimerFired(handle, allowed) =>
      if handle in s.timers then Tick(s.(timers := s.timers - {handle}), s.timers[handle], allowed) else s
    case Settled(ticket, reply, allowed, again) =>
      if ticket in s.pending then Resume(s.(pending := s.pending - {ticket}), s.pending[ticket], reply, allowed, again) else s
  }

  /** The state after a run, from the session's creation. */
  function Run(events: seq<Event>): State {
    if events == [] then INITIAL else Step(Run(events[..|events| - 1]), events[|events| - 1])
  }
}
