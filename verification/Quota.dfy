/**
 Quota (server/mapreduce/quota.py): a memcache counter shared by many clients without a lock. decr is atomic but
 stops at 0, and a client that took too much puts the excess back in a second step.
 */
module Quota {
  import opened Wrappers

  // Quota values are stored with this offset since memcache counters are unsigned.
  const OFFSET: nat := 0x1_0000_0000

  /** memcache decr never goes below zero. A bucket not yet created counts as OFFSET, its initial value. */
  function Decr(value: nat, delta: nat): nat {
    if value < delta then 0 else value - delta
  }

  /** What consume returns, given the counter after its decr. */
  function Granted(newQuota: nat, amount: nat, consumeSome: bool): nat {
    if newQuota >= OFFSET then amount
    else if consumeSome && OFFSET - newQuota < amount then amount - (OFFSET - newQuota)
    else 0
  }

  /** What consume puts back in its second step. */
  function Excess(newQuota: nat, amount: nat, consumeSome: bool): (x: nat)
    ensures x + Granted(newQuota, amount, consumeSome) == amount
  {
    if newQuota >= OFFSET then 0
    else if consumeSome && OFFSET - newQuota < amount then OFFSET - newQuota
    else amount
  }

  // ----- any number of clients, their atomic steps in any order -----

  // A client: quota it holds, units consumed for entities not yet processed, units consumed in all, excess it still has
  // to put back, entities it processed. A crashed client takes no more steps.
  datatype Client = Client(held: nat, hand: nat, used: nat, owed: nat, processed: nat, disposed: bool)
  datatype Pool = Pool(value: nat, refilled: nat, clients: seq<Client>)

  const NEW_CLIENT := Client(0, 0, 0, 0, 0, false)

  datatype Step =
    | Refill(amount: nat)                              // the controller's put
    | Take(i: nat, amount: nat, consumeSome: bool)     // the decr of QuotaManager.consume
    | GiveBack(i: nat)                                 // the put of QuotaManager.consume
    | Use(i: nat, amount: nat)                         // QuotaConsumer.consume from what it holds
    | Process(i: nat)                                  // one entity
    | Unuse(i: nat, amount: nat)                       // QuotaConsumer.put
    | Dispose(i: nat)                                  // QuotaConsumer.dispose
  {
    predicate Of(me: nat) {
      !Refill? && i == me
    }
  }

  predicate Enabled(p: Pool, step: Step, batch: nat) {
    if step.Refill? then true else step.i < |p.clients| && Allows(p.clients[step.i], step, batch)
  }

  // What a client may do next depends on itself alone.
  predicate Allows(c: Client, step: Step, batch: nat) {
    && !c.disposed
    && match step
       case Refill(_) => true
       case Take(_, amount, _) => c.owed == 0 && amount <= batch
       case GiveBack(_) => true
       case Use(_, amount) => c.owed == 0 && amount <= c.held
       case Process(_) => c.owed == 0 && c.hand > 0
       case Unuse(_, amount) => c.owed == 0 && amount <= c.hand <= c.used
       case Dispose(_) => c.owed == 0
  }

  /** The amount of a step's incr. */
  function PutBy(c: Client, step: Step): nat {
    match step
    case Refill(amount) => amount
    case GiveBack(_) => c.owed
    case Dispose(_) => c.held
    case _ => 0
  }

  /** A client after its step, given the counter the step left behind. */
  function After(c: Client, step: Step, value: nat, batch: nat): Client
    requires Allows(c, step, batch)
  {
    match step
    case Refill(_) => c
    case Take(_, amount, some) => c.(held := c.held + Granted(value, amount, some), owed := Excess(value, amount, some))
    case GiveBack(_) => c.(owed := 0)
    case Use(_, amount) => c.(held := c.held - amount, hand := c.hand + amount, used := c.used + amount)
    case Process(_) => c.(hand := c.hand - 1, processed := c.processed + 1)
    case Unuse(_, amount) => c.(held := c.held + amount, hand := c.hand - amount, used := c.used - amount)
    case Dispose(_) => c.(held := 0, disposed := true)
  }

  function Apply(p: Pool, step: Step, batch: nat): Pool
    requires Enabled(p, step, batch)
  {
    if step.Refill? then p.(value := p.value + step.amount, refilled := p.refilled + step.amount)
    else
      var c := p.clients[step.i];
      var v := if step.Take? then Decr(p.value, step.amount) else p.value + PutBy(c, step);
      Pool(v, p.refilled, p.clients[step.i := After(c, step, v, batch)])
  }

  ghost function Owed(clients: seq<Client>): nat {
    if clients == [] then 0 else clients[|clients| - 1].owed + Owed(clients[..|clients| - 1])
  }

  ghost function HeldOrUsed(clients: seq<Client>): nat {
    if clients == [] then 0 else clients[|clients| - 1].held + clients[|clients| - 1].used + HeldOrUsed(clients[..|clients| - 1])
  }

  ghost function Used(clients: seq<Client>): (n: nat)
    ensures n <= HeldOrUsed(clients)
  {
    if clients == [] then 0 else clients[|clients| - 1].used + Used(clients[..|clients| - 1])
  }

  /**
   Conservation: the bucket, with the excess still to come back, holds all that was refilled and neither used nor
   held; it is never overdrawn.
   */
  ghost predicate Balanced(p: Pool, batch: nat) {
    && p.value + Owed(p.clients) + HeldOrUsed(p.clients) == OFFSET + p.refilled
    && p.value + Owed(p.clients) >= OFFSET
    && forall i :: 0 <= i < |p.clients| ==> p.clients[i].owed <= batch && p.clients[i].hand <= p.clients[i].used
  }

  lemma {:induction false} SumsUpdate(clients: seq<Client>, i: nat, c: Client)
    requires i < |clients|
    ensures Owed(clients[i := c]) == Owed(clients) - clients[i].owed + c.owed
    ensures HeldOrUsed(clients[i := c]) == HeldOrUsed(clients) - clients[i].held - clients[i].used + c.held + c.used
  {
    var last := |clients| - 1;
    if i < last {
      SumsUpdate(clients[..last], i, c);
      assert clients[i := c][..last] == clients[..last][i := c];
    } else {
      assert clients[i := c][..last] == clients[..last];
    }
  }

  lemma {:induction false} OwedBound(clients: seq<Client>, batch: nat, i: nat)
    requires forall k :: 0 <= k < |clients| ==> clients[k].owed <= batch
    ensures Owed(clients) <= |clients| * batch
    ensures i < |clients| && clients[i].owed == 0 ==> Owed(clients) + batch <= |clients| * batch
  {
    if clients != [] {
      OwedBound(clients[..|clients| - 1], batch, i);
      Product(|clients| - 1, batch);
    }
  }

  lemma Product(n: nat, batch: nat)
    ensures (n + 1) * batch == n * batch + batch
  {}

  // The decr does not hit zero.
  lemma TakeDoesNotClamp(p: Pool, i: nat, amount: nat, batch: nat)
    requires Balanced(p, batch) && |p.clients| * batch <= OFFSET
    requires i < |p.clients| && p.clients[i].owed == 0 && amount <= batch
    ensures amount <= p.value
  {
    OwedBound(p.clients, batch, i);
  }

  /** Every step of every client keeps the balance, as long as clients times batch does not exceed the offset. */
  lemma StepKeepsBalance(p: Pool, step: Step, batch: nat)
    requires Balanced(p, batch) && Enabled(p, step, batch) && |p.clients| * batch <= OFFSET
    ensures Balanced(Apply(p, step, batch), batch) && |Apply(p, step, batch).clients| == |p.clients|
  {
    hide Owed, HeldOrUsed;
    if !step.Refill? {
      if step.Take? {
        TakeDoesNotClamp(p, step.i, step.amount, batch);
      }
      SumsUpdate(p.clients, step.i, Apply(p, step, batch).clients[step.i]);
    }
  }

  /** A decr keeps the balance exactly when it does not stop at zero. */
  lemma TakeIsExactWithoutClamp(p: Pool, i: nat, amount: nat, some: bool, batch: nat)
    requires Balanced(p, batch) && Enabled(p, Take(i, amount, some), batch)
    ensures Balanced(Apply(p, Take(i, amount, some), batch), batch) <==> amount <= p.value
    ensures Apply(p, Take(i, amount, some), batch).value == if amount <= p.value then p.value - amount else 0
  {
    hide Owed, HeldOrUsed;
    SumsUpdate(p.clients, i, Apply(p, Take(i, amount, some), batch).clients[i]);
  }

  // ----- runs -----

  /** The steps one after the other, if each is enabled where it happens. */
  function Perform(p: Pool, steps: seq<Step>, batch: nat): Option<Pool>
    decreases |steps|
  {
    if steps == [] then Some(p)
    else if Enabled(p, steps[0], batch) then Perform(Apply(p, steps[0], batch), steps[1..], batch)
    else None
  }

  lemma {:induction false} PerformOneMore(p: Pool, steps: seq<Step>, step: Step, batch: nat)
    requires Perform(p, steps, batch).Some? && Enabled(Perform(p, steps, batch).value, step, batch)
    ensures Perform(p, steps + [step], batch) == Some(Apply(Perform(p, steps, batch).value, step, batch))
    decreases |steps|
  {
    hide Apply, Enabled;
    if steps == [] {
      var q := Apply(p, step, batch);
      assert ([step])[1..] == [] && Perform(q, [], batch) == Some(q);
    } else {
      assert (steps + [step])[1..] == steps[1..] + [step];
      PerformOneMore(Apply(p, steps[0], batch), steps[1..], step, batch);
    }
  }

  function Fresh(n: nat): Pool {
    Pool(OFFSET, 0, seq(n, _ => NEW_CLIENT))
  }

  lemma {:induction false} FreshIsBalanced(n: nat, batch: nat)
    ensures Balanced(Fresh(n), batch)
  {
    if n > 0 {
      FreshIsBalanced(n - 1, batch);
      assert Fresh(n).clients[..n - 1] == Fresh(n - 1).clients;
    }
  }

  lemma {:induction false} StepsKeepBalance(p: Pool, steps: seq<Step>, batch: nat)
    requires Balanced(p, batch) && |p.clients| * batch <= OFFSET && Perform(p, steps, batch).Some?
    ensures var q := Perform(p, steps, batch).value; Balanced(q, batch) && |q.clients| == |p.clients|
    decreases |steps|
  {
    hide Balanced, Apply, Enabled;
    if steps != [] {
      StepKeepsBalance(p, steps[0], batch);
      StepsKeepBalance(Apply(p, steps[0], batch), steps[1..], batch);
    }
  }

  /** Over whole runs, in any interleaving: conservation holds at every point and no more is used than was refilled. */
  lemma RunKeepsBalance(n: nat, steps: seq<Step>, batch: nat)
    requires n * batch <= OFFSET && Perform(Fresh(n), steps, batch).Some?
    ensures var p := Perform(Fresh(n), steps, batch).value;
            Balanced(p, batch) && |p.clients| == n && Used(p.clients) <= p.refilled
  {
    FreshIsBalanced(n, batch);
    StepsKeepBalance(Fresh(n), steps, batch);
  }

  // ----- exactly when the balance holds -----

  // The first j clients have each taken one batch from the untouched bucket.
  function Takes(j: nat, batch: nat): seq<Step> {
    if j == 0 then [] else Takes(j - 1, batch) + [Take(j - 1, batch, true)]
  }

  lemma {:induction false} TakesOverdraw(n: nat, batch: nat, j: nat)
    requires j <= n && j * batch <= OFFSET
    ensures Perform(Fresh(n), Takes(j, batch), batch).Some?
    ensures var p := Perform(Fresh(n), Takes(j, batch), batch).value;
            && p.value == OFFSET - j * batch && Balanced(p, batch) && |p.clients| == n
            && forall i :: j <= i < n ==> p.clients[i] == NEW_CLIENT
  {
    hide Balanced, Perform;
    if j == 0 {
      FreshIsBalanced(n, batch);
      assert Perform(Fresh(n), [], batch) == Some(Fresh(n)) by { PerformNothing(Fresh(n), batch); }
    } else {
      Product(j - 1, batch);
      TakesOverdraw(n, batch, j - 1);
      var p := Perform(Fresh(n), Takes(j - 1, batch), batch).value;
      TakeIsExactWithoutClamp(p, j - 1, batch, true, batch);
      PerformOneMore(Fresh(n), Takes(j - 1, batch), Take(j - 1, batch, true), batch);
    }
  }

  lemma PerformNothing(p: Pool, batch: nat)
    ensures Perform(p, [], batch) == Some(p)
  {}

  lemma FirstOver(n: nat, batch: nat) returns (k: nat)
    requires n * batch > OFFSET
    ensures 0 < k <= n && k * batch > OFFSET && (k - 1) * batch <= OFFSET
  {
    k := 0;
    while k * batch <= OFFSET
      invariant k <= n && (k > 0 ==> (k - 1) * batch <= OFFSET)
      decreases n - k
    {
      k := k + 1;
    }
  }

  ghost predicate AlwaysBalanced(n: nat, batch: nat) {
    forall steps: seq<Step> :: Perform(Fresh(n), steps, batch).Some? ==> Balanced(Perform(Fresh(n), steps, batch).value, batch)
  }

  /**
   The balance holds at every point of every run of n clients if and only if n times batch does not exceed the offset:
   past that bound n clients that each try one batch on the untouched bucket bring it out of balance.
   */
  lemma BalancedExactly(n: nat, batch: nat)
    ensures AlwaysBalanced(n, batch) <==> n * batch <= 0x1_0000_0000
  {
    hide Balanced, Perform;
    if n * batch <= OFFSET {
      forall steps | Perform(Fresh(n), steps, batch).Some?
        ensures Balanced(Perform(Fresh(n), steps, batch).value, batch)
      {
        RunKeepsBalance(n, steps, batch);
      }
    } else {
      var k := FirstOver(n, batch);
      Product(k - 1, batch);
      TakesOverdraw(n, batch, k - 1);
      var p := Perform(Fresh(n), Takes(k - 1, batch), batch).value;
      TakeIsExactWithoutClamp(p, k - 1, batch, true, batch);
      PerformOneMore(Fresh(n), Takes(k - 1, batch), Take(k - 1, batch, true), batch);
      assert Perform(Fresh(n), Takes(k, batch), batch).Some?;
    }
  }

  // ----- what a slice has used -----

  /** A client has used one unit for each entity processed, and those still in hand; behind dispose nothing is left. */
  predicate Accounted(c: Client) {
    && c.used == c.processed + c.hand
    && (c.disposed ==> c.held == 0 && c.owed == 0)
  }

  lemma {:induction false} RunKeepsAccounts(p: Pool, steps: seq<Step>, batch: nat)
    requires (forall c :: c in p.clients ==> Accounted(c)) && Perform(p, steps, batch).Some?
    ensures forall c :: c in Perform(p, steps, batch).value.clients ==> Accounted(c)
    decreases |steps|
  {
    if steps != [] {
      var q := Apply(p, steps[0], batch);
      forall c | c in q.clients
        ensures Accounted(c)
      {
        var i :| 0 <= i < |q.clients| && q.clients[i] == c;
        assert p.clients[i] in p.clients;
      }
      RunKeepsAccounts(q, steps[1..], batch);
    }
  }

  ghost function Processed(clients: seq<Client>): nat {
    if clients == [] then 0 else clients[|clients| - 1].processed + Processed(clients[..|clients| - 1])
  }

  ghost function InHand(clients: seq<Client>): nat {
    if clients == [] then 0 else clients[|clients| - 1].hand + InHand(clients[..|clients| - 1])
  }

  lemma {:induction false} DisposedSums(clients: seq<Client>)
    requires forall c :: c in clients ==> Accounted(c) && c.disposed
    ensures Owed(clients) == 0 && HeldOrUsed(clients) == Processed(clients) + InHand(clients)
    ensures (forall c :: c in clients ==> c.hand == 0) ==> InHand(clients) == 0
  {
    if clients != [] {
      assert clients[|clients| - 1] in clients;
      DisposedSums(clients[..|clients| - 1]);
    }
  }

  /**
   When all clients have disposed of what they held, the bucket holds everything refilled except one unit for each
   entity processed and one for each that a slice stopped by an exception had in hand, whatever the interleaving.
   */
  lemma DisposedBucket(n: nat, steps: seq<Step>, batch: nat)
    requires n * batch <= OFFSET && Perform(Fresh(n), steps, batch).Some?
    requires forall c :: c in Perform(Fresh(n), steps, batch).value.clients ==> c.disposed
    ensures var p := Perform(Fresh(n), steps, batch).value;
            && p.value == OFFSET + p.refilled - Processed(p.clients) - InHand(p.clients)
            && ((forall c :: c in p.clients ==> c.hand == 0) ==> p.value == OFFSET + p.refilled - Processed(p.clients))
  {
    RunKeepsBalance(n, steps, batch);
    RunKeepsAccounts(Fresh(n), steps, batch);
    DisposedSums(Perform(Fresh(n), steps, batch).value.clients);
  }

  // ----- the objects, among other clients -----

  /**
   The memcache counter. Before each operation of one client the others and the controller take any number of steps of
   theirs, given by the time of the operation; who holds what is recorded beside the counter.
   */
  class Bucket {
    const size: nat
    const batch: nat
    const others: nat -> seq<Step>
    var pool: Pool
    var time: nat
    ghost var history: seq<Step>

    // The bucket is in a state that some interleaving reaches.
    ghost predicate Valid()
      reads this
    {
      Perform(Fresh(size), history, batch) == Some(pool) && |pool.clients| == size
    }

    // Nobody else uses the bucket.
    ghost predicate Quiet() {
      forall t :: others(t) == []
    }

    constructor (size: nat, batch: nat, others: nat -> seq<Step>)
      ensures this.size == size && this.batch == batch && this.others == others && pool == Fresh(size) && Valid()
    {
      this.size, this.batch, this.others, pool, time, history := size, batch, others, Fresh(size), 0, [];
    }

    method Perform1(step: Step)
      requires Valid() && Enabled(pool, step, batch)
      modifies this
      ensures Valid() && pool == Apply(old(pool), step, batch)
    {
      hide Perform;
      PerformOneMore(Fresh(size), history, step, batch);
      pool := Apply(pool, step, batch);
      history := history + [step];
    }

    method Interfere(me: nat)
      requires Valid() && me < size
      modifies this
      ensures Valid() && pool.clients[me] == old(pool.clients[me])
      ensures Quiet() ==> pool == old(pool)
    {
      hide Perform, After, Allows;
      var steps := others(time);
      time := time + 1;
      for k := 0 to |steps|
        invariant Valid() && pool.clients[me] == old(pool.clients[me])
        invariant steps == [] ==> pool == old(pool)
      {
        if !steps[k].Of(me) && Enabled(pool, steps[k], batch) {
          Perform1(steps[k]);
        }
      }
    }

    /** memcache decr. */
    method DecrBy(me: nat, amount: nat, consumeSome: bool) returns (value: nat)
      requires Valid() && me < size && Allows(pool.clients[me], Take(me, amount, consumeSome), batch)
      modifies this
      ensures Valid() && value == pool.value
      ensures pool.clients[me] == After(old(pool.clients[me]), Take(me, amount, consumeSome), value, batch)
      ensures Quiet() ==> pool == Apply(old(pool), Take(me, amount, consumeSome), batch)
    {
      Interfere(me);
      Perform1(Take(me, amount, consumeSome));
      value := pool.value;
    }

    /** memcache incr, as the step that the client owes or disposes with. */
    method IncrBy(me: nat, amount: nat, step: Step)
      requires Valid() && me < size && step.Of(me) && (step.GiveBack? || step.Dispose?)
      requires Allows(pool.clients[me], step, batch) && amount == PutBy(pool.clients[me], step)
      modifies this
      ensures Valid() && pool.clients[me] == After(old(pool.clients[me]), step, 0, batch)
      ensures Quiet() ==> pool == Apply(old(pool), step, batch) && pool.value == old(pool.value) + amount
    {
      Interfere(me);
      Perform1(step);
    }

    method Get(me: nat) returns (value: nat)
      requires Valid() && me < size
      modifies this
      ensures Valid() && pool.clients[me] == old(pool.clients[me]) && value == pool.value
      ensures Quiet() ==> pool == old(pool)
    {
      Interfere(me);
      value := pool.value;
    }
  }

  class QuotaManager {
    const bucket: Bucket

    constructor (bucket: Bucket)
      ensures this.bucket == bucket
    {
      this.bucket := bucket;
    }

    method Put(me: nat, amount: nat, step: Step)
      requires bucket.Valid() && me < bucket.size && step.Of(me) && (step.GiveBack? || step.Dispose?)
      requires Allows(bucket.pool.clients[me], step, bucket.batch) && amount == PutBy(bucket.pool.clients[me], step)
      modifies bucket
      ensures bucket.Valid()
      ensures bucket.pool.clients[me] == After(old(bucket.pool.clients[me]), step, 0, bucket.batch)
      ensures bucket.Quiet() ==> bucket.pool.value == old(bucket.pool.value) + amount
    {
      bucket.IncrBy(me, amount, step);
    }

    /**
     consume: what it grants is decided by the counter behind its own decr, and what it took beyond that goes back; so
     the client holds exactly the grant, whatever others do in between. Undisturbed it grants all, or if asked for what
     there is.
     */
    method Consume(me: nat, amount: nat, consumeSome: bool) returns (granted: nat, ghost newQuota: nat)
      requires bucket.Valid() && me < bucket.size && Allows(bucket.pool.clients[me], Take(me, amount, consumeSome), bucket.batch)
      modifies bucket
      ensures bucket.Valid() && granted == Granted(newQuota, amount, consumeSome)
      ensures bucket.pool.clients[me] == old(bucket.pool.clients[me]).(held := old(bucket.pool.clients[me].held) + granted)
      ensures bucket.Quiet() && old(bucket.pool.value) >= OFFSET && amount <= OFFSET ==>
                var available := old(bucket.pool.value) - OFFSET;
                && granted == (if available >= amount then amount else if consumeSome then available else 0)
                && bucket.pool.value == old(bucket.pool.value) - granted
    {
      hide Perform;
      var value := bucket.DecrBy(me, amount, consumeSome);
      newQuota := value;
      if value >= OFFSET {
        return amount, value;
      }
      if consumeSome && OFFSET - value < amount {
        Put(me, OFFSET - value, GiveBack(me));
        return amount - (OFFSET - value), value;
      } else {
        Put(me, amount, GiveBack(me));
        return 0, value;
      }
    }

    method Get(me: nat) returns (amount: int, ghost value: nat)
      requires bucket.Valid() && me < bucket.size
      modifies bucket
      ensures bucket.Valid() && bucket.pool.clients[me] == old(bucket.pool.clients[me])
      ensures amount == if value == 0 then 0 else value - OFFSET
      ensures bucket.Quiet() ==> bucket.pool == old(bucket.pool) && value == bucket.pool.value
    {
      var stored := bucket.Get(me);
      value := stored;
      amount := if stored != 0 then stored - OFFSET else 0;
    }
  }

  class QuotaConsumer {
    const manager: QuotaManager
    const bucket: Bucket
    const me: nat
    const batchSize: nat
    var quota: nat

    ghost function Account(): Client
      requires bucket.Valid() && me < bucket.size
      reads this, bucket
    {
      bucket.pool.clients[me]
    }

    // The quota field is what the client holds.
    ghost predicate Valid()
      reads this, bucket
    {
      && bucket.Valid() && manager.bucket == bucket && me < bucket.size && batchSize <= bucket.batch
      && Account().held == quota && Account().owed == 0 && !Account().disposed && Account().hand <= Account().used
    }

    // Undisturbed, with an offset that one batch cannot exceed.
    ghost predicate Alone()
      reads bucket
    {
      bucket.Quiet() && OFFSET <= bucket.pool.value && 0 < batchSize <= OFFSET
    }

    // What this client can still consume if undisturbed.
    ghost function Available(): nat
      requires Alone()
      reads this, bucket
    {
      quota + (bucket.pool.value - OFFSET)
    }

    constructor (bucket: Bucket, me: nat, batchSize: nat)
      requires bucket.Valid() && me < bucket.size && batchSize <= bucket.batch && bucket.pool.clients[me] == NEW_CLIENT
      ensures Valid() && this.bucket == bucket && this.me == me && this.batchSize == batchSize && quota == 0
    {
      this.bucket, this.me, this.batchSize, quota := bucket, me, batchSize, 0;
      manager := new QuotaManager(bucket);
    }

    /** On success exactly the amount comes into hand, on failure nothing, whatever others do meanwhile. */
    method Consume(amount: nat) returns (ok: bool)
      requires Valid()
      modifies this, bucket
      ensures Valid() && Account().processed == old(Account().processed)
      ensures Account().hand == old(Account().hand) + (if ok then amount else 0)
      ensures Account().used == old(Account().used) + (if ok then amount else 0)
      ensures old(Alone()) ==> Alone() && (ok <==> old(Available()) >= amount)
                               && Available() == old(Available()) - (if ok then amount else 0)
    {
      hide Perform;
      while quota < amount
        invariant Valid() && Account() == old(Account()).(held := quota)
        invariant old(Alone()) ==> Alone() && Available() == old(Available())
        decreases amount - quota
      {
        var delta, newQuota := manager.Consume(me, batchSize, true);
        if delta == 0 {
          return false;
        }
        quota := quota + delta;
      }
      bucket.Perform1(Use(me, amount));
      quota := quota - amount;
      return true;
    }

    method Put(amount: nat)
      requires Valid() && amount <= Account().hand
      modifies this, bucket
      ensures Valid() && Account() == old(Account()).(held := quota, hand := old(Account()).hand - amount, used := old(Account()).used - amount)
      ensures old(Alone()) ==> Alone() && Available() == old(Available()) + amount
    {
      hide Perform;
      bucket.Perform1(Unuse(me, amount));
      quota := quota + amount;
    }

    /** Tells whether there is enough at the moment of asking. */
    method Check(amount: nat) returns (enough: bool)
      requires Valid()
      modifies bucket
      ensures Valid() && Account() == old(Account()) && quota == old(quota)
      ensures quota >= amount ==> enough
      ensures old(Alone()) ==> Alone() && Available() == old(Available()) && (enough <==> Available() >= amount)
    {
      hide Perform;
      if quota >= amount {
        return true;
      }
      var inBucket, value := manager.Get(me);
      return quota + inBucket >= amount;
    }

    /** Everything held goes back and nothing is owed. */
    method Dispose()
      requires Valid()
      modifies bucket
      ensures bucket.Valid() && Account() == old(Account()).(held := 0, disposed := true)
      ensures old(Alone()) ==> bucket.pool.value == OFFSET + old(Available())
    {
      hide Perform;
      manager.Put(me, quota, Step.Dispose(me));
    }
  }

  /**
   The scanning part of a worker slice (MapperWorkerCallbackHandler.handle) among other clients and refills: one unit
   ahead of every entity, the spare one handed back at the end of the input, everything unused returned by dispose.
   stop(k) says that the time was up after the k-th entity. Whatever the others do, the client ends with exactly as
   many units used as entities processed and nothing held, owed or in hand. Undisturbed, the bucket is down by exactly
   the entities processed, and the slice finishes exactly if there was a unit more than entities and time was never up.
   */
  method ScanSlice(bucket: Bucket, me: nat, batchSize: nat, entities: nat, stop: nat -> bool)
    returns (processed: nat, finished: bool)
    requires bucket.Valid() && me < bucket.size && batchSize <= bucket.batch && bucket.pool.clients[me] == NEW_CLIENT
    modifies bucket
    ensures bucket.Valid() && bucket.pool.clients[me] == Client(0, 0, processed, 0, processed, true)
    ensures processed <= entities && (finished ==> processed == entities && forall k :: 1 <= k <= entities ==> !stop(k))
    ensures forall k :: 1 <= k < processed ==> !stop(k)
    ensures bucket.Quiet() && OFFSET <= old(bucket.pool.value) && 0 < batchSize <= OFFSET ==>
              && bucket.pool.value == old(bucket.pool.value) - processed
              && (finished <==> old(bucket.pool.value) - OFFSET > entities && forall k :: 1 <= k <= entities ==> !stop(k))
  {
    hide Perform;
    var consumer := new QuotaConsumer(bucket, me, batchSize);
    ghost var alone := consumer.Alone();
    ghost var units := bucket.pool.value - OFFSET;
    processed, finished := 0, false;
    var enough := consumer.Check(1);
    if enough {
      var aborted := false;
      var first := consumer.Consume(1);
      if first {
        while processed < entities && !aborted
          invariant fresh(consumer) && consumer.bucket == bucket && consumer.me == me && consumer.batchSize == batchSize && consumer.Valid()
          invariant processed <= entities && consumer.Account().processed == processed
          invariant consumer.Account().hand == (if aborted then 0 else 1) && consumer.Account().used == processed + consumer.Account().hand
          invariant alone ==> consumer.Alone() && consumer.Available() == units - processed - (if aborted then 0 else 1)
          invariant forall k :: 1 <= k < processed ==> !stop(k)
          invariant !aborted ==> forall k :: 1 <= k <= processed ==> !stop(k)
          invariant alone && aborted ==> processed > 0 && (stop(processed) || units == processed)
          decreases entities - processed, !aborted
        {
          bucket.Perform1(Process(me));
          processed := processed + 1;
          aborted := stop(processed);
          if !aborted {
            var next := consumer.Consume(1);
            aborted := !next;
          }
        }
      } else {
        aborted := true;
      }
      if !aborted {
        consumer.Put(1);
        finished := true;
      }
    }
    consumer.Dispose();
  }
}
