/**
 * CallDeferrer: four FIFO queues of deferred game calls, one per point of
 * the frame (start and end of Update, start and end of Draw). Draining a
 * queue dequeues and invokes calls until the queue is empty, so a call
 * deferred to the same queue by a running callback runs in the same drain.
 *
 * A callback's body is not visible; what it does to the deferrer is the
 * list of calls it defers. `reactions[k]` is that list for the k-th call
 * the deferrer invokes (none once the list is exhausted), which also bounds
 * how long a drain can run. The invocations whose index is in `throwing`
 * throw once they have made their deferrals; the exception leaves the
 * drain with the rest of the queue still queued.
 */
module Deferrer {
  import opened Wrappers
  import opened Xna
  import opened Seqs

  /** A deferred call, identified by the delegate it wraps. */
  datatype Call = Call(id: nat)

  /** The four queues. */
  datatype Phase = UpdateStart | UpdateEnd | DrawStart | DrawEnd

  /** A `DeferTo*(action)` call made by a running callback. */
  datatype Deferral = Deferral(phase: Phase, call: Call)

  /** One invocation `call(game, gameTime)`. */
  datatype Invocation = Invocation(call: Call, game: Game, time: GameTime)

  datatype Queues = Queues(updateStart: seq<Call>, updateEnd: seq<Call>, drawStart: seq<Call>, drawEnd: seq<Call>)

  function Queue(qs: Queues, p: Phase): seq<Call> {
    match p
    case UpdateStart => qs.updateStart
    case UpdateEnd => qs.updateEnd
    case DrawStart => qs.drawStart
    case DrawEnd => qs.drawEnd
  }

  /** The queues with queue `p` replaced by `q` and the other three unchanged. */
  function WithQueue(qs: Queues, p: Phase, q: seq<Call>): Queues {
    match p
    case UpdateStart => qs.(updateStart := q)
    case UpdateEnd => qs.(updateEnd := q)
    case DrawStart => qs.(drawStart := q)
    case DrawEnd => qs.(drawEnd := q)
  }

  /** Replacing queue `p` changes queue `p` alone. */
  lemma WithQueueReplaces(qs: Queues, p: Phase, q: seq<Call>, p': Phase)
    ensures Queue(WithQueue(qs, p, q), p') == if p' == p then q else Queue(qs, p')
  {
  }

  /** `DeferTo(action, q)`, `q.Enqueue(action)`: the action joins the back of its queue. */
  function Enqueue(qs: Queues, d: Deferral): (r: Queues)
    ensures r.updateStart == qs.updateStart + if d.phase == UpdateStart then [d.call] else []
    ensures r.updateEnd == qs.updateEnd + if d.phase == UpdateEnd then [d.call] else []
    ensures r.drawStart == qs.drawStart + if d.phase == DrawStart then [d.call] else []
    ensures r.drawEnd == qs.drawEnd + if d.phase == DrawEnd then [d.call] else []
  {
    WithQueue(qs, d.phase, Queue(qs, d.phase) + [d.call])
  }

  /**
   * The calls of `ds` deferred to queue `p`, in order: a call is among them
   * exactly when `ds` defers it to `p`.
   */
  function For(p: Phase, ds: seq<Deferral>): (r: seq<Call>)
    ensures |r| <= |ds|
    ensures forall c :: c in r ==> Deferral(p, c) in ds
    ensures forall d :: d in ds && d.phase == p ==> d.call in r
  {
    if |ds| == 0 then []
    else
      var init, last := ds[..|ds| - 1], ds[|ds| - 1];
      assert forall d :: d in init ==> d in ds;
      assert forall d :: d in ds ==> d in init || d == last;
      For(p, init) + if last.phase == p then [last.call] else []
  }

  /** The deferrals of a callback, made one after another. */
  function EnqueueAll(qs: Queues, ds: seq<Deferral>): Queues {
    if |ds| == 0 then qs else Enqueue(EnqueueAll(qs, ds[..|ds| - 1]), ds[|ds| - 1])
  }

  lemma {:induction false} ForAppend(p: Phase, ds: seq<Deferral>, es: seq<Deferral>)
    ensures For(p, ds + es) == For(p, ds) + For(p, es)
    decreases |es|
  {
    if |es| == 0 {
      assert ds + es == ds;
    } else {
      var init := es[..|es| - 1];
      assert (ds + es)[..|ds + es| - 1] == ds + init;
      ForAppend(p, ds, init);
    }
  }

  /** What the `k`-th invocation defers. */
  function Reaction(reactions: seq<seq<Deferral>>, k: nat): seq<Deferral> {
    if k < |reactions| then reactions[k] else []
  }

  /** Everything the invocations `k` to `k + n - 1` defer, in order. */
  function Reactions(reactions: seq<seq<Deferral>>, k: nat, n: nat): seq<Deferral>
    decreases n
  {
    if n == 0 then [] else Reaction(reactions, k) + Reactions(reactions, k + 1, n - 1)
  }

  /** How many invocations can still defer something. */
  function Budget(reactions: seq<seq<Deferral>>, k: nat): nat {
    if k < |reactions| then |reactions| - k else 0
  }

  /** The queues once the front call of queue `p` is dequeued and invocation `k` has made its deferrals. */
  function Next(reactions: seq<seq<Deferral>>, qs: Queues, k: nat, p: Phase): Queues
    requires |Queue(qs, p)| > 0
  {
    EnqueueAll(WithQueue(qs, p, Queue(qs, p)[1..]), Reaction(reactions, k))
  }

  /** A round of the drain either uses up a reaction or shortens the queue. */
  lemma NextProgress(reactions: seq<seq<Deferral>>, qs: Queues, k: nat, p: Phase)
    requires |Queue(qs, p)| > 0
    ensures Budget(reactions, k + 1) < Budget(reactions, k) ||
            (Budget(reactions, k + 1) == Budget(reactions, k) && |Queue(Next(reactions, qs, k, p), p)| < |Queue(qs, p)|)
  {
    if Budget(reactions, k + 1) == Budget(reactions, k) {
      assert Next(reactions, qs, k, p) == WithQueue(qs, p, Queue(qs, p)[1..]);
    }
  }

  /**
   * The queues after a drain, the invocations it made in order, and the
   * exception that ended it, if one did.
   */
  datatype Drained = Drained(final: Queues, log: seq<Invocation>, outcome: Outcome<Invocation>)

  /**
   * `Execute(q, gameTime)`: while queue `p` is not empty, dequeue its front
   * call, invoke it with the game and `gameTime`, and let it defer what it
   * defers; an invocation in `throwing` then throws, which ends the drain.
   * `k` counts the invocations made so far. A drain that ends normally
   * leaves queue `p` empty; one that ends in an exception ends at the
   * first throwing invocation, whose exception it reports.
   */
  function Drain(reactions: seq<seq<Deferral>>, throwing: set<nat>, qs: Queues, k: nat, p: Phase,
                 game: Game, time: GameTime): (r: Drained)
    ensures r.outcome.Fail? ==> |r.log| > 0 && r.outcome.error == r.log[|r.log| - 1]
    decreases Budget(reactions, k), |Queue(qs, p)|
  {
    if |Queue(qs, p)| == 0 then Drained(qs, [], Pass)
    else
      var now := Invocation(Queue(qs, p)[0], game, time);
      if k in throwing then Drained(Next(reactions, qs, k, p), [now], Fail(now))
      else
        NextProgress(reactions, qs, k, p);
        var rest := Drain(reactions, throwing, Next(reactions, qs, k, p), k + 1, p, game, time);
        Drained(rest.final, [now] + rest.log, rest.outcome)
  }

  /** The calls of a list of invocations. */
  function Calls(log: seq<Invocation>): (r: seq<Call>)
    ensures |r| == |log|
  {
    if |log| == 0 then [] else [log[0].call] + Calls(log[1..])
  }

  /**
   * One round of the drain loop that does not throw: the front call is
   * invoked, then the rest of the drain runs on what is left.
   */
  lemma DrainStep(reactions: seq<seq<Deferral>>, throwing: set<nat>, qs: Queues, k: nat, p: Phase, game: Game, time: GameTime)
    requires |Queue(qs, p)| > 0 && k !in throwing
    ensures var next := Drain(reactions, throwing, Next(reactions, qs, k, p), k + 1, p, game, time);
            Drain(reactions, throwing, qs, k, p, game, time) ==
            Drained(next.final, [Invocation(Queue(qs, p)[0], game, time)] + next.log, next.outcome)
  {
  }

  /** A round whose invocation throws ends the drain with that round's queues and that invocation. */
  lemma DrainThrows(reactions: seq<seq<Deferral>>, throwing: set<nat>, qs: Queues, k: nat, p: Phase, game: Game, time: GameTime)
    requires |Queue(qs, p)| > 0 && k in throwing
    ensures var now := Invocation(Queue(qs, p)[0], game, time);
            Drain(reactions, throwing, qs, k, p, game, time) == Drained(Next(reactions, qs, k, p), [now], Fail(now))
  {
  }

  /**
   * After a round that does not throw, the drain that remains finishes the
   * drain that was pending before it.
   */
  lemma DrainRound(reactions: seq<seq<Deferral>>, throwing: set<nat>, qs: Queues, k: nat, p: Phase, game: Game, time: GameTime,
                   logged: seq<Invocation>, qs': Queues, logged': seq<Invocation>)
    requires |Queue(qs, p)| > 0 && k == |logged| && k !in throwing
    requires qs' == Next(reactions, qs, k, p) && logged' == logged + [Invocation(Queue(qs, p)[0], game, time)]
    ensures var before := Drain(reactions, throwing, qs, k, p, game, time);
            var after := Drain(reactions, throwing, qs', |logged'|, p, game, time);
            after.final == before.final && logged + before.log == logged' + after.log
  {
    var now := Invocation(Queue(qs, p)[0], game, time);
    assert |logged'| == k + 1;
    var next := Drain(reactions, throwing, qs', k + 1, p, game, time);
    DrainStep(reactions, throwing, qs, k, p, game, time);
    Associative(logged, [now], next.log);
  }

  /**
   * After a round that throws, the drain that was pending before it is
   * complete: its queues are the round's, its invocations end with the
   * round's, and its exception is the round's.
   */
  lemma DrainRoundThrows(reactions: seq<seq<Deferral>>, throwing: set<nat>, qs: Queues, k: nat, p: Phase, game: Game, time: GameTime,
                         logged: seq<Invocation>, qs': Queues, logged': seq<Invocation>, outcome: Outcome<Invocation>)
    requires |Queue(qs, p)| > 0 && k == |logged| && k in throwing
    requires qs' == Next(reactions, qs, k, p) && logged' == logged + [Invocation(Queue(qs, p)[0], game, time)]
    requires outcome == Fail(logged'[|logged'| - 1])
    ensures var before := Drain(reactions, throwing, qs, k, p, game, time);
            before.final == qs' && logged + before.log == logged' && before.outcome == outcome
  {
    DrainThrows(reactions, throwing, qs, k, p, game, time);
  }

  /** After a round that does not throw, the drain that remains ends as the drain pending before it would. */
  lemma DrainRoundOutcome(reactions: seq<seq<Deferral>>, throwing: set<nat>, qs: Queues, k: nat, p: Phase, game: Game, time: GameTime)
    requires |Queue(qs, p)| > 0 && k !in throwing
    ensures Drain(reactions, throwing, Next(reactions, qs, k, p), k + 1, p, game, time).outcome ==
            Drain(reactions, throwing, qs, k, p, game, time).outcome
  {
    DrainStep(reactions, throwing, qs, k, p, game, time);
  }

  /**
   * One round of the drain loop, thrown or not, in the terms of the loop:
   * a thrown round completes the drain pending before it; a round that
   * does not throw leaves a drain that finishes it, and makes progress.
   */
  lemma DrainAdvance(reactions: seq<seq<Deferral>>, throwing: set<nat>, qs: Queues, p: Phase, game: Game, time: GameTime,
                     logged: seq<Invocation>, qs': Queues, logged': seq<Invocation>, outcome: Outcome<Invocation>)
    requires |Queue(qs, p)| > 0
    requires qs' == Next(reactions, qs, |logged|, p) && logged' == logged + [Invocation(Queue(qs, p)[0], game, time)]
    requires outcome == if |logged| in throwing then Fail(logged'[|logged'| - 1]) else Pass
    ensures var before := Drain(reactions, throwing, qs, |logged|, p, game, time);
            outcome.Fail? ==> before.final == qs' && logged + before.log == logged' && before.outcome == outcome
    ensures var before := Drain(reactions, throwing, qs, |logged|, p, game, time);
            var after := Drain(reactions, throwing, qs', |logged'|, p, game, time);
            outcome.Pass? ==> after.final == before.final && logged + before.log == logged' + after.log &&
                              after.outcome == before.outcome
    ensures outcome.Pass? ==>
              Budget(reactions, |logged'|) < Budget(reactions, |logged|) ||
              (Budget(reactions, |logged'|) == Budget(reactions, |logged|) && |Queue(qs', p)| < |Queue(qs, p)|)
  {
    var k := |logged|;
    if k in throwing {
      DrainRoundThrows(reactions, throwing, qs, k, p, game, time, logged, qs', logged', outcome);
    } else {
      DrainRound(reactions, throwing, qs, k, p, game, time, logged, qs', logged');
      DrainRoundOutcome(reactions, throwing, qs, k, p, game, time);
      assert |logged'| == k + 1;
      NextProgress(reactions, qs, k, p);
    }
  }

  /** Draining an empty queue invokes nothing and changes nothing. */
  lemma DrainIdle(reactions: seq<seq<Deferral>>, throwing: set<nat>, qs: Queues, k: nat, p: Phase, game: Game, time: GameTime)
    requires Queue(qs, p) == []
    ensures Drain(reactions, throwing, qs, k, p, game, time) == Drained(qs, [], Pass)
  {
  }

  /**
   * A drain ends in an exception exactly when one of its invocations is in
   * `throwing`, and then at the first such one: no invocation before the
   * last one throws, and the last one throws when the drain fails.
   */
  lemma {:induction false} DrainStopsAtThrow(reactions: seq<seq<Deferral>>, throwing: set<nat>, qs: Queues, k: nat, p: Phase,
                                            game: Game, time: GameTime)
    ensures var d := Drain(reactions, throwing, qs, k, p, game, time);
            (forall j :: k <= j < k + |d.log| - 1 ==> j !in throwing) &&
            (d.outcome.Fail? <==> |d.log| > 0 && k + |d.log| - 1 in throwing)
    decreases Budget(reactions, k), |Queue(qs, p)|
  {
    if |Queue(qs, p)| > 0 && k !in throwing {
      NextProgress(reactions, qs, k, p);
      DrainStopsAtThrow(reactions, throwing, Next(reactions, qs, k, p), k + 1, p, game, time);
      DrainStep(reactions, throwing, qs, k, p, game, time);
    }
  }

  /** A drain that ends without an exception leaves its queue empty. */
  lemma {:induction false} DrainEmpties(reactions: seq<seq<Deferral>>, throwing: set<nat>, qs: Queues, k: nat, p: Phase,
                                        game: Game, time: GameTime)
    ensures var d := Drain(reactions, throwing, qs, k, p, game, time);
            d.outcome.Pass? ==> Queue(d.final, p) == []
    decreases Budget(reactions, k), |Queue(qs, p)|
  {
    if |Queue(qs, p)| > 0 && k !in throwing {
      NextProgress(reactions, qs, k, p);
      DrainEmpties(reactions, throwing, Next(reactions, qs, k, p), k + 1, p, game, time);
      DrainStep(reactions, throwing, qs, k, p, game, time);
    }
  }

  /** Each queue grows by exactly the calls a callback defers to it, in the order deferred. */
  lemma {:induction false} EnqueueAllQueues(qs: Queues, ds: seq<Deferral>, p: Phase)
    ensures Queue(EnqueueAll(qs, ds), p) == Queue(qs, p) + For(p, ds)
  {
    if |ds| > 0 {
      EnqueueAllQueues(qs, ds[..|ds| - 1], p);
    }
  }

  /** What a round adds to each queue: dequeuing shortens queue `p`, the invocation's deferrals extend every queue. */
  lemma NextQueues(reactions: seq<seq<Deferral>>, qs: Queues, k: nat, p: Phase, p': Phase)
    requires |Queue(qs, p)| > 0
    ensures Queue(Next(reactions, qs, k, p), p') ==
            (if p' == p then Queue(qs, p)[1..] else Queue(qs, p')) + For(p', Reaction(reactions, k))
  {
    EnqueueAllQueues(WithQueue(qs, p, Queue(qs, p)[1..]), Reaction(reactions, k), p');
  }

  /**
   * A drain of queue `p` invokes first the calls queued before it began, in
   * FIFO order, then the calls its invocations deferred to `p`, in the order
   * they were deferred, each once; what an exception keeps it from invoking
   * stays queued in `p`, in the same order.
   */
  lemma {:induction false} DrainInvokes(reactions: seq<seq<Deferral>>, throwing: set<nat>, qs: Queues, k: nat, p: Phase,
                                       game: Game, time: GameTime)
    ensures var d := Drain(reactions, throwing, qs, k, p, game, time);
            Calls(d.log) + Queue(d.final, p) == Queue(qs, p) + For(p, Reactions(reactions, k, |d.log|))
    decreases Budget(reactions, k), |Queue(qs, p)|
  {
    var q := Queue(qs, p);
    if |q| == 0 {
      DrainIdle(reactions, throwing, qs, k, p, game, time);
    } else if k in throwing {
      DrainThrows(reactions, throwing, qs, k, p, game, time);
      ThrownRound(reactions, qs, k, p, Invocation(q[0], game, time));
    } else {
      var d := Drain(reactions, throwing, qs, k, p, game, time);
      var now := Reaction(reactions, k);
      var after := Next(reactions, qs, k, p);
      var next := Drain(reactions, throwing, after, k + 1, p, game, time);
      var later := Reactions(reactions, k + 1, |next.log|);
      assert d.log == [Invocation(q[0], game, time)] + next.log && d.final == next.final by {
        DrainStep(reactions, throwing, qs, k, p, game, time);
      }
      assert Calls(next.log) + Queue(next.final, p) == q[1..] + For(p, now) + For(p, later) by {
        NextProgress(reactions, qs, k, p);
        DrainInvokes(reactions, throwing, after, k + 1, p, game, time);
        NextQueues(reactions, qs, k, p, p);
      }
      assert Reactions(reactions, k, |d.log|) == now + later;
      CallsPrepend(q, d.log, next.log, Invocation(q[0], game, time), p, Queue(d.final, p), now, later);
    }
  }

  /** A round that throws: its call is the one invoked, and the rest of the queue, with its deferrals, stays. */
  lemma ThrownRound(reactions: seq<seq<Deferral>>, qs: Queues, k: nat, p: Phase, first: Invocation)
    requires |Queue(qs, p)| > 0 && first.call == Queue(qs, p)[0]
    ensures Calls([first]) + Queue(Next(reactions, qs, k, p), p) == Queue(qs, p) + For(p, Reactions(reactions, k, 1))
  {
    var q := Queue(qs, p);
    NextQueues(reactions, qs, k, p, p);
    assert Reactions(reactions, k + 1, 0) == [] && Reactions(reactions, k, 1) == Reaction(reactions, k);
    assert Calls([first]) == [q[0]];
    assert q == [q[0]] + q[1..];
  }

  /** The sequence algebra of one round of `DrainInvokes`. */
  lemma CallsPrepend(q: seq<Call>, whole: seq<Invocation>, log: seq<Invocation>, first: Invocation,
                     p: Phase, rest: seq<Call>, now: seq<Deferral>, later: seq<Deferral>)
    requires |q| > 0 && first.call == q[0] && whole == [first] + log
    requires Calls(log) + rest == q[1..] + For(p, now) + For(p, later)
    ensures Calls(whole) + rest == q + For(p, now + later)
  {
    assert whole[1..] == log;
    ForAppend(p, now, later);
    assert Calls(whole) + rest == [q[0]] + (Calls(log) + rest);
    assert q == [q[0]] + q[1..];
  }

  /** Every invocation of a drain passes the deferrer's game and the given time. */
  lemma {:induction false} DrainArguments(reactions: seq<seq<Deferral>>, throwing: set<nat>, qs: Queues, k: nat, p: Phase,
                                         game: Game, time: GameTime)
    ensures var log := Drain(reactions, throwing, qs, k, p, game, time).log;
            forall i :: 0 <= i < |log| ==> log[i] == Invocation(log[i].call, game, time)
    decreases Budget(reactions, k), |Queue(qs, p)|
  {
    if |Queue(qs, p)| > 0 && k !in throwing {
      NextProgress(reactions, qs, k, p);
      DrainArguments(reactions, throwing, Next(reactions, qs, k, p), k + 1, p, game, time);
      DrainStep(reactions, throwing, qs, k, p, game, time);
    }
  }

  /**
   * A drain of queue `p` adds to each other queue exactly what its
   * invocations deferred to that queue.
   */
  lemma {:induction false} DrainQueues(reactions: seq<seq<Deferral>>, throwing: set<nat>, qs: Queues, k: nat, p: Phase,
                                      game: Game, time: GameTime, p': Phase)
    requires p' != p
    ensures var d := Drain(reactions, throwing, qs, k, p, game, time);
            Queue(d.final, p') == Queue(qs, p') + For(p', Reactions(reactions, k, |d.log|))
    decreases Budget(reactions, k), |Queue(qs, p)|
  {
    if |Queue(qs, p)| > 0 {
      var now := Reaction(reactions, k);
      var after := Next(reactions, qs, k, p);
      NextQueues(reactions, qs, k, p, p');
      if k in throwing {
        DrainThrows(reactions, throwing, qs, k, p, game, time);
        assert Reactions(reactions, k + 1, 0) == [] && Reactions(reactions, k, 1) == now;
      } else {
        var next := Drain(reactions, throwing, after, k + 1, p, game, time);
        var whole := Drain(reactions, throwing, qs, k, p, game, time);
        var later := Reactions(reactions, k + 1, |next.log|);
        assert whole == Drained(next.final, [Invocation(Queue(qs, p)[0], game, time)] + next.log, next.outcome) by {
          DrainStep(reactions, throwing, qs, k, p, game, time);
        }
        NextProgress(reactions, qs, k, p);
        DrainQueues(reactions, throwing, after, k + 1, p, game, time, p');
        assert Reactions(reactions, k, |whole.log|) == now + later;
        QueueGrows(Queue(qs, p'), Queue(after, p'), Queue(next.final, p'), p', now, later);
      }
    }
  }

  /** The sequence algebra of one round of `DrainQueues`. */
  lemma QueueGrows(q: seq<Call>, mid: seq<Call>, final: seq<Call>, p: Phase, now: seq<Deferral>, later: seq<Deferral>)
    requires mid == q + For(p, now) && final == mid + For(p, later)
    ensures final == q + For(p, now + later)
  {
    ForAppend(p, now, later);
  }

  class CallDeferrer {
    const game: Game
    /** What each invocation defers, by the index of the invocation. */
    const reactions: seq<seq<Deferral>>
    /** The invocations, by index, that throw once they have made their deferrals. */
    const throwing: set<nat>
    var updateStartQueue: seq<Call>
    var updateEndQueue: seq<Call>
    var drawStartQueue: seq<Call>
    var drawEndQueue: seq<Call>
    /** Every invocation this deferrer has made, in order. */
    var invocations: seq<Invocation>

    function Pending(): Queues
      reads this
    {
      Queues(updateStartQueue, updateEndQueue, drawStartQueue, drawEndQueue)
    }

    /** `new CallDeferrer(game)`, with empty queues. */
    constructor (game: Game, reactions: seq<seq<Deferral>>, throwing: set<nat>)
      ensures this.game == game && this.reactions == reactions && this.throwing == throwing
      ensures Pending() == Queues([], [], [], []) && invocations == []
    {
      this.game, this.reactions, this.throwing := game, reactions, throwing;
      updateStartQueue, updateEndQueue, drawStartQueue, drawEndQueue := [], [], [], [];
      invocations := [];
    }

    /** `DeferTo(action, q)`. */
    method DeferTo(p: Phase, action: Call)
      modifies this`updateStartQueue, this`updateEndQueue, this`drawStartQueue, this`drawEndQueue
      ensures Pending() == Enqueue(old(Pending()), Deferral(p, action))
    {
      match p
      case UpdateStart => updateStartQueue := updateStartQueue + [action];
      case UpdateEnd => updateEndQueue := updateEndQueue + [action];
      case DrawStart => drawStartQueue := drawStartQueue + [action];
      case DrawEnd => drawEndQueue := drawEndQueue + [action];
    }

    method DeferToUpdateStart(action: Call)
      modifies this`updateStartQueue, this`updateEndQueue, this`drawStartQueue, this`drawEndQueue
      ensures Pending() == old(Pending()).(updateStart := old(updateStartQueue) + [action])
    {
      DeferTo(UpdateStart, action);
    }

    method DeferToUpdateEnd(action: Call)
      modifies this`updateStartQueue, this`updateEndQueue, this`drawStartQueue, this`drawEndQueue
      ensures Pending() == old(Pending()).(updateEnd := old(updateEndQueue) + [action])
    {
      DeferTo(UpdateEnd, action);
    }

    method DeferToDrawStart(action: Call)
      modifies this`updateStartQueue, this`updateEndQueue, this`drawStartQueue, this`drawEndQueue
      ensures Pending() == old(Pending()).(drawStart := old(drawStartQueue) + [action])
    {
      DeferTo(DrawStart, action);
    }

    method DeferToDrawEnd(action: Call)
      modifies this`updateStartQueue, this`updateEndQueue, this`drawStartQueue, this`drawEndQueue
      ensures Pending() == old(Pending()).(drawEnd := old(drawEndQueue) + [action])
    {
      DeferTo(DrawEnd, action);
    }

    /** The body of invoked call number `|invocations|`: the deferrals it makes, one after another. */
    method RunCallback(ds: seq<Deferral>)
      modifies this`updateStartQueue, this`updateEndQueue, this`drawStartQueue, this`drawEndQueue
      ensures Pending() == EnqueueAll(old(Pending()), ds)
    {
      for j := 0 to |ds|
        invariant Pending() == EnqueueAll(old(Pending()), ds[..j])
      {
        assert ds[..j + 1][..j] == ds[..j];
        DeferTo(ds[j].phase, ds[j].call);
      }
      assert ds[..|ds|] == ds;
    }

    /** `q.TryDequeue(out var c)` on a queue that is not empty: remove and return its front call. */
    method Dequeue(p: Phase) returns (c: Call)
      requires |Queue(Pending(), p)| > 0
      modifies this`updateStartQueue, this`updateEndQueue, this`drawStartQueue, this`drawEndQueue
      ensures c == Queue(old(Pending()), p)[0]
      ensures Pending() == WithQueue(old(Pending()), p, Queue(old(Pending()), p)[1..])
    {
      match p
      case UpdateStart => c, updateStartQueue := updateStartQueue[0], updateStartQueue[1..];
      case UpdateEnd => c, updateEndQueue := updateEndQueue[0], updateEndQueue[1..];
      case DrawStart => c, drawStartQueue := drawStartQueue[0], drawStartQueue[1..];
      case DrawEnd => c, drawEndQueue := drawEndQueue[0], drawEndQueue[1..];
    }

    /**
     * One round of the drain loop: dequeue the front call and invoke it with
     * the game and `gameTime`, which performs its deferrals and then, for an
     * invocation in `throwing`, throws.
     */
    method InvokeNext(p: Phase, gameTime: GameTime) returns (outcome: Outcome<Invocation>)
      requires |Queue(Pending(), p)| > 0
      modifies this`updateStartQueue, this`updateEndQueue, this`drawStartQueue, this`drawEndQueue, this`invocations
      ensures Pending() == Next(reactions, old(Pending()), |old(invocations)|, p)
      ensures invocations == old(invocations) + [Invocation(Queue(old(Pending()), p)[0], game, gameTime)]
      ensures outcome == if |old(invocations)| in throwing then Fail(invocations[|invocations| - 1]) else Pass
      ensures var before := Drain(reactions, throwing, old(Pending()), |old(invocations)|, p, game, gameTime);
              outcome.Fail? ==> before.final == Pending() && old(invocations) + before.log == invocations && before.outcome == outcome
      ensures var before := Drain(reactions, throwing, old(Pending()), |old(invocations)|, p, game, gameTime);
              var after := Drain(reactions, throwing, Pending(), |invocations|, p, game, gameTime);
              outcome.Pass? ==> after.final == before.final && old(invocations) + before.log == invocations + after.log &&
                                after.outcome == before.outcome
      ensures outcome.Pass? ==>
                Budget(reactions, |invocations|) < Budget(reactions, |old(invocations)|) ||
                (Budget(reactions, |invocations|) == Budget(reactions, |old(invocations)|) &&
                 |Queue(Pending(), p)| < |Queue(old(Pending()), p)|)
    {
      ghost var qs, logged := Pending(), invocations;
      var c := Dequeue(p);
      var k := |invocations|;
      var ds := if k < |reactions| then reactions[k] else [];
      invocations := invocations + [Invocation(c, game, gameTime)];
      RunCallback(ds);
      outcome := if k in throwing then Fail(Invocation(c, game, gameTime)) else Pass;
      DrainAdvance(reactions, throwing, qs, p, game, gameTime, logged, Pending(), invocations, outcome);
    }

    /**
     * `Execute(q, gameTime)`: `while (q.TryDequeue(out var c)) c.Invoke(game, gameTime);`,
     * ended early by an invocation that throws.
     */
    method Execute(p: Phase, gameTime: GameTime) returns (outcome: Outcome<Invocation>)
      modifies this`updateStartQueue, this`updateEndQueue, this`drawStartQueue, this`drawEndQueue, this`invocations
      ensures var d := Drain(reactions, throwing, old(Pending()), |old(invocations)|, p, game, gameTime);
              Pending() == d.final && invocations == old(invocations) + d.log && outcome == d.outcome
    {
      ghost var total := Drain(reactions, throwing, Pending(), |invocations|, p, game, gameTime);
      while |Queue(Pending(), p)| > 0
        invariant var rest := Drain(reactions, throwing, Pending(), |invocations|, p, game, gameTime);
                  rest.final == total.final && old(invocations) + total.log == invocations + rest.log &&
                  rest.outcome == total.outcome
        decreases Budget(reactions, |invocations|), |Queue(Pending(), p)|
      {
        outcome := InvokeNext(p, gameTime);
        if outcome.Fail? {
          return;
        }
      }
      DrainIdle(reactions, throwing, Pending(), |invocations|, p, game, gameTime);
      outcome := Pass;
    }

    method ExecuteUpdateStartDeferredCalls(gameTime: GameTime) returns (outcome: Outcome<Invocation>)
      modifies this
      ensures var d := Drain(reactions, throwing, old(Pending()), |old(invocations)|, UpdateStart, game, gameTime);
              Pending() == d.final && invocations == old(invocations) + d.log && outcome == d.outcome
    {
      outcome := Execute(UpdateStart, gameTime);
    }

    method ExecuteUpdateEndDeferredCalls(gameTime: GameTime) returns (outcome: Outcome<Invocation>)
      modifies this
      ensures var d := Drain(reactions, throwing, old(Pending()), |old(invocations)|, UpdateEnd, game, gameTime);
              Pending() == d.final && invocations == old(invocations) + d.log && outcome == d.outcome
    {
      outcome := Execute(UpdateEnd, gameTime);
    }

    method ExecuteDrawStartDeferredCalls(gameTime: GameTime) returns (outcome: Outcome<Invocation>)
      modifies this
      ensures var d := Drain(reactions, throwing, old(Pending()), |old(invocations)|, DrawStart, game, gameTime);
              Pending() == d.final && invocations == old(invocations) + d.log && outcome == d.outcome
    {
      outcome := Execute(DrawStart, gameTime);
    }

    method ExecuteDrawEndDeferredCalls(gameTime: GameTime) returns (outcome: Outcome<Invocation>)
      modifies this
      ensures var d := Drain(reactions, throwing, old(Pending()), |old(invocations)|, DrawEnd, game, gameTime);
              Pending() == d.final && invocations == old(invocations) + d.log && outcome == d.outcome
    {
      outcome := Execute(DrawEnd, gameTime);
    }
  }
}
