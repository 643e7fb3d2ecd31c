/** The outcome exchange of one node: outcomes of transactions arrive in any order, repeated or
    conflicting, while a transaction that this node did not publish itself waits for its own. */
module CalvinOutcomes {
  import opened Basics
  import opened Transactions
  import opened CalvinExchange
  import opened CalvinStateful
  import opened SerialRows

  /** What the leader of a transaction's outcome shard says about it. */
  datatype TxOutcome = TxOutcome(slot: Slot, shard: Shard, sender: Token, verdict: Verdict)

  predicate SentByLeader(o: TxOutcome, leader: map<Shard, Token>) {
    o.shard in leader && o.sender == leader[o.shard]
  }

  /** What the digest covers: everything but the sender. */
  predicate SameOutcome(a: TxOutcome, b: TxOutcome) {
    a.slot == b.slot && a.shard == b.shard && a.verdict == b.verdict
  }

  datatype Answer = Got(outcome: TxOutcome) | Misplaced | Asleep(channel: nat)

  type Heard = map<Slot, seq<TxOutcome>>

  ghost function HeardOf(heard: Heard, slot: Slot): seq<TxOutcome> {
    if slot in heard then heard[slot] else []
  }

  /** The board holds exactly the first outcome heard of each transaction. */
  ghost predicate FirstHeld(outcomes: map<Slot, TxOutcome>, heard: Heard) {
    forall slot ::
      && (slot in outcomes <==> HeardOf(heard, slot) != [])
      && (slot in outcomes ==> outcomes[slot] == HeardOf(heard, slot)[0] && outcomes[slot].slot == slot)
  }

  /** A waiter whose channel is open is registered on it, and its outcome is not there. */
  ghost predicate NobodyForgotten(asleep: map<Slot, nat>, signal: map<Slot, nat>, closed: set<nat>,
      outcomes: map<Slot, TxOutcome>) {
    forall slot :: slot in asleep && asleep[slot] !in closed ==>
      slot in signal && signal[slot] == asleep[slot] && slot !in outcomes
  }

  lemma HeldOf(outcomes: map<Slot, TxOutcome>, heard: Heard, slot: Slot)
    requires FirstHeld(outcomes, heard)
    ensures slot in outcomes <==> HeardOf(heard, slot) != []
    ensures slot in outcomes ==> outcomes[slot] == HeardOf(heard, slot)[0] && outcomes[slot].slot == slot
  {
  }

  lemma HoldFirst(outcomes: map<Slot, TxOutcome>, heard: Heard, o: TxOutcome)
    requires FirstHeld(outcomes, heard)
    ensures var outcomes' := if o.slot in outcomes then outcomes else outcomes[o.slot := o];
            FirstHeld(outcomes', heard[o.slot := HeardOf(heard, o.slot) + [o]])
  {
    var heard' := heard[o.slot := HeardOf(heard, o.slot) + [o]];
    forall slot
      ensures slot != o.slot ==> HeardOf(heard', slot) == HeardOf(heard, slot)
    {
    }
  }

  lemma LetGo(outcomes: map<Slot, TxOutcome>, heard: Heard, slot: Slot)
    requires FirstHeld(outcomes, heard)
    ensures FirstHeld(outcomes - {slot}, heard - {slot})
  {
    forall z
      ensures HeardOf(heard - {slot}, z) == if z == slot then [] else HeardOf(heard, z)
    {
    }
  }

  lemma Rouse(asleep: map<Slot, nat>, signal: map<Slot, nat>, closed: set<nat>, nextChannel: nat,
      outcomes: map<Slot, TxOutcome>, o: TxOutcome)
    requires Channels(signal, closed, nextChannel) && NobodyForgotten(asleep, signal, closed, outcomes)
    ensures var closed' := if o.slot in signal then closed + {signal[o.slot]} else closed;
            && Channels(signal - {o.slot}, closed', nextChannel)
            && NobodyForgotten(asleep, signal - {o.slot}, closed', outcomes[o.slot := o])
            && (o.slot in asleep ==> asleep[o.slot] in closed')
  {
  }

  lemma Doze(asleep: map<Slot, nat>, signal: map<Slot, nat>, closed: set<nat>, nextChannel: nat,
      outcomes: map<Slot, TxOutcome>, slot: Slot)
    requires Channels(signal, closed, nextChannel) && NobodyForgotten(asleep, signal, closed, outcomes)
    requires slot !in outcomes
    ensures var signal' := if slot in signal then signal else signal[slot := nextChannel];
            && Channels(signal', closed, nextChannel + 1)
            && (slot in signal ==> Channels(signal', closed, nextChannel))
            && NobodyForgotten(asleep[slot := signal'[slot]], signal', closed, outcomes) && signal'[slot] !in closed
  {
  }

  lemma Depart(asleep: map<Slot, nat>, signal: map<Slot, nat>, closed: set<nat>, nextChannel: nat,
      outcomes: map<Slot, TxOutcome>, slot: Slot)
    requires Channels(signal, closed, nextChannel) && NobodyForgotten(asleep, signal, closed, outcomes)
    ensures Channels(signal - {slot}, closed, nextChannel)
    ensures NobodyForgotten(asleep - {slot}, signal - {slot}, closed, outcomes - {slot})
  {
  }

  class OutcomeBoard {
    const leader: map<Shard, Token>
    var outcomes: map<Slot, TxOutcome>
    var signal: map<Slot, nat>
    var closed: set<nat>
    var nextChannel: nat
    /** Outcomes from leaders for each transaction since it was last taken. */
    ghost var heard: Heard
    ghost var asleep: map<Slot, nat>

    ghost predicate Valid()
      reads this
    {
      && FirstHeld(outcomes, heard) && Channels(signal, closed, nextChannel)
      && NobodyForgotten(asleep, signal, closed, outcomes)
    }

    constructor (leader: map<Shard, Token>)
      ensures Valid() && this.leader == leader && heard == map[] && asleep == map[]
    {
      this.leader := leader;
      outcomes, signal, closed, nextChannel, heard, asleep := map[], map[], {}, 0, map[], map[];
    }

    /** `acceptCalvinOutcome`: keeps the first outcome of a transaction, accepts repetitions of it,
        refuses a conflicting one, and wakes the waiter. */
    method Accept(o: TxOutcome) returns (ok: bool)
      requires Valid()
      modifies `outcomes, `signal, `closed, `heard
      ensures Valid() && asleep == old(asleep)
      ensures ok <==> SentByLeader(o, leader) && (o.slot in old(outcomes) ==> SameOutcome(old(outcomes)[o.slot], o))
      ensures heard == if SentByLeader(o, leader) then old(heard)[o.slot := HeardOf(old(heard), o.slot) + [o]]
        else old(heard)
      ensures ok <==>
        && o.shard in leader && o.sender == leader[o.shard]
        && var h := HeardOf(heard, o.slot); h != [] && h[0].shard == o.shard && h[0].verdict == o.verdict
      ensures SentByLeader(o, leader) && o.slot in asleep && o.slot !in old(outcomes) ==> asleep[o.slot] in closed
    {
      if !SentByLeader(o, leader) {
        return false;
      }
      hide FirstHeld; hide Channels; hide NobodyForgotten;
      HoldFirst(outcomes, heard, o);
      HeldOf(outcomes, heard, o.slot);
      heard := heard[o.slot := HeardOf(heard, o.slot) + [o]];
      if o.slot in outcomes {
        return SameOutcome(outcomes[o.slot], o);
      }
      Rouse(asleep, signal, closed, nextChannel, outcomes, o);
      outcomes := outcomes[o.slot := o];
      if o.slot in signal {
        closed := closed + {signal[o.slot]};
      }
      signal := signal - {o.slot};
      return true;
    }

    /** One turn of the wait loop of `calvinOutcomeExchange`: takes the outcome if it is there,
        reports one from another shard than the expected, or goes to sleep. */
    method Take(slot: Slot, shard: Shard) returns (out: Answer)
      requires Valid()
      modifies `outcomes, `signal, `nextChannel, `heard, `asleep
      ensures Valid() && closed == old(closed)
      ensures out.Asleep? <==> HeardOf(old(heard), slot) == []
      ensures out.Got? <==> HeardOf(old(heard), slot) != [] && HeardOf(old(heard), slot)[0].shard == shard
      ensures out.Got? ==> out.outcome == HeardOf(old(heard), slot)[0]
      ensures !out.Asleep? ==> heard == old(heard) - {slot} && asleep == old(asleep) - {slot}
      ensures out.Asleep?
        ==> heard == old(heard) && asleep == old(asleep)[slot := out.channel] && out.channel !in closed
    {
      assert slot in outcomes <==> HeardOf(heard, slot) != [];
      assert slot in outcomes ==> outcomes[slot] == HeardOf(heard, slot)[0];
      hide FirstHeld; hide Channels; hide NobodyForgotten;
      if slot in outcomes {
        var outcome := outcomes[slot];
        LetGo(outcomes, heard, slot);
        Depart(asleep, signal, closed, nextChannel, outcomes, slot);
        outcomes, signal := outcomes - {slot}, signal - {slot};
        heard, asleep := heard - {slot}, asleep - {slot};
        return if outcome.shard == shard then Got(outcome) else Misplaced;
      }
      Doze(asleep, signal, closed, nextChannel, outcomes, slot);
      if slot !in signal {
        signal := signal[slot := nextChannel];
        nextChannel := nextChannel + 1;
      }
      asleep := asleep[slot := signal[slot]];
      return Asleep(signal[slot]);
    }
  }

  /** Once an outcome was heard, in whatever order and however often, the waiter's channel is
      closed: it will look again. */
  lemma OutcomeWakes(b: OutcomeBoard, slot: Slot)
    requires b.Valid() && slot in b.asleep && HeardOf(b.heard, slot) != []
    ensures b.asleep[slot] in b.closed
  {
    hide Channels;
    assert slot in b.outcomes;
  }

  /** After a finished run, if the outcome shard's leader says what its shard has, whoever takes the
      first outcome heard adopts the serial receipt. */
  lemma AdoptsSerial(c: Job, run: seq<State>, i: nat, publisher: Shard, slot: Slot, heard: Heard)
    requires WellFormed(c) && Orderly(c) && IsRun(c, run) && Finished(c, Last(run))
    requires i < |c.block| && Runs(c, publisher, i)
    requires forall p :: 0 <= p < |HeardOf(heard, slot)| && HeardOf(heard, slot)[p].shard == publisher ==>
      (publisher, i) in Last(run).ran && HeardOf(heard, slot)[p].verdict == VerdictOf(Last(run).ran[(publisher, i)])
    requires HeardOf(heard, slot) != [] && HeardOf(heard, slot)[0].shard == publisher
    ensures HeardOf(heard, slot)[0].verdict == VerdictOf(OutcomeAt(c, Unchecked, i))
  {
    hide WellFormed; hide Orderly; hide IsRun; hide Finished; hide OutcomeAt; hide Runs; hide HeardOf;
    EveryReceiptIsSerial(c, run, i, publisher, publisher);
  }
}
