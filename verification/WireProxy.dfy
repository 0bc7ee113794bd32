/**
 The cache proxy (scripts/cache-wire-proxy.py): a token bucket shared by all
 downstream pumps, and any number of pumps that copy one socket to another.
 Bytes and clock readings are values given to the steps; the lock around the
 bucket makes each of its operations one step.
 */
module WireProxy {
  import opened Wrappers

  const CHUNK: nat := 65536

  // ----- the bucket -----

  datatype Bucket = Bucket(rate: real, capacity: nat, tokens: real, updated: real)

  function Capacity(rate: real): (c: nat)
    requires rate >= 0.0
    ensures c <= 65536 && (c == 0 <==> rate == 0.0)
    ensures rate > 0.0 ==> (c == 1 || c as real <= rate / 100.0) && (c == 65536 || rate / 100.0 < c as real + 1.0)
  {
    if rate == 0.0 then 0
    else
      var burst := (rate * 0.01).Floor;
      if burst < 1 then 1 else if burst > CHUNK then CHUNK else burst
  }

  function Least(x: real, y: real): real {
    if x <= y then x else y
  }

  /** What `rate` adds in `seconds`. */
  function Earned(seconds: real, rate: real): real {
    seconds * rate
  }

  function Refilled(b: Bucket, now: real): Bucket {
    b.(tokens := if b.rate == 0.0 then b.tokens
      else Least(b.capacity as real, b.tokens + Earned(now - b.updated, b.rate)),
       updated := now)
  }

  function Amount(b: Bucket, requested: nat): nat {
    if requested <= b.capacity then requested else b.capacity
  }

  /** One turn of `acquire` under the lock: the bucket after it, and what was granted if tokens sufficed. */
  function Acquired(b: Bucket, requested: nat, now: real): (Bucket, Option<nat>) {
    if b.rate == 0.0 then (b, Some(requested))
    else
      var r, amount := Refilled(b, now), Amount(b, requested);
      if r.tokens >= amount as real then (r.(tokens := r.tokens - amount as real), Some(amount)) else (r, None)
  }

  function Refunded(b: Bucket, amount: nat, now: real): Bucket {
    if amount == 0 || b.rate == 0.0 then b
    else
      var r := Refilled(b, now);
      r.(tokens := Least(r.capacity as real, r.tokens + amount as real))
  }

  predicate ValidBucket(b: Bucket) {
    b.rate >= 0.0 && b.capacity == Capacity(b.rate) && 0.0 <= b.tokens <= b.capacity as real
  }

  /** What `acquire` could find in the bucket at `now`. */
  function Level(b: Bucket, now: real): real {
    Least(b.capacity as real, b.tokens + Earned(now - b.updated, b.rate))
  }

  class DownlinkLimiter {
    const rate: real
    const capacity: nat
    var tokens: real
    var updated: real

    function State(): Bucket
      reads this
    {
      Bucket(rate, capacity, tokens, updated)
    }

    constructor (rate: real, now: real)
      requires rate >= 0.0
      ensures ValidBucket(State())
      ensures State() == Bucket(rate, Capacity(rate), Capacity(rate) as real, now)
    {
      this.rate := rate;
      capacity := Capacity(rate);
      tokens := Capacity(rate) as real;
      updated := now;
    }

    method Refill(now: real)
      modifies this
      ensures State() == Refilled(old(State()), now)
    {
      if rate != 0.0 {
        tokens := Least(capacity as real, tokens + Earned(now - updated, rate));
      }
      updated := now;
    }

    method TryAcquire(requested: nat, now: real) returns (grant: Option<nat>)
      requires ValidBucket(State()) && updated <= now
      modifies this
      ensures ValidBucket(State()) && (State(), grant) == Acquired(old(State()), requested, now)
    {
      if rate == 0.0 {
        return Some(requested);
      }
      RefillKeepsValid(State(), now);
      var amount := if requested <= capacity then requested else capacity;
      Refill(now);
      if tokens >= amount as real {
        tokens := tokens - amount as real;
        return Some(amount);
      }
      return None;
    }

    method Refund(amount: nat, now: real)
      requires ValidBucket(State()) && updated <= now
      modifies this
      ensures ValidBucket(State()) && State() == Refunded(old(State()), amount, now)
    {
      if amount == 0 || rate == 0.0 {
        return;
      }
      RefillKeepsValid(State(), now);
      Refill(now);
      tokens := Least(capacity as real, tokens + amount as real);
    }
  }

  lemma {:induction false} EarnedIsPositive(seconds: real, rate: real)
    requires seconds >= 0.0 && rate >= 0.0
    ensures Earned(seconds, rate) >= 0.0
  {}

  lemma {:induction false} EarnedAdds(s: real, t: real, u: real, rate: real)
    ensures Earned(u - s, rate) == Earned(t - s, rate) + Earned(u - t, rate)
  {
    assert (u - s) * rate == (t - s) * rate + (u - t) * rate;
  }

  lemma {:induction false} RefillKeepsValid(b: Bucket, now: real)
    requires ValidBucket(b) && b.updated <= now
    ensures ValidBucket(Refilled(b, now))
  {
    EarnedIsPositive(now - b.updated, b.rate);
  }

  /** A refused request is granted once the delay that `acquire` computes has passed, if nobody else draws. */
  lemma {:induction false} DelayIsEnough(b: Bucket, requested: nat, now: real, later: real)
    requires ValidBucket(b) && b.updated <= now && Acquired(b, requested, now).1.None?
    requires later >= now + (Amount(b, requested) as real - Refilled(b, now).tokens) / b.rate
    ensures Acquired(Acquired(b, requested, now).0, requested, later).1 == Some(Amount(b, requested))
  {
    var r, amount := Refilled(b, now), Amount(b, requested) as real;
    RefillKeepsValid(b, now);
    DelayEarns(amount - r.tokens, b.rate, later - now);
  }

  /** And not before. */
  lemma {:induction false} DelayIsLeast(b: Bucket, requested: nat, now: real, later: real)
    requires ValidBucket(b) && b.updated <= now && Acquired(b, requested, now).1.None?
    requires now <= later < now + (Amount(b, requested) as real - Refilled(b, now).tokens) / b.rate
    ensures Acquired(Acquired(b, requested, now).0, requested, later).1 == None
  {
    var r, amount := Refilled(b, now), Amount(b, requested) as real;
    RefillKeepsValid(b, now);
    var missing := amount - r.tokens;
    var delay := missing / b.rate;
    assert delay * b.rate == missing;
    EarnsMore(later - now, delay, b.rate);
  }

  lemma {:induction false} EarnsMore(seconds: real, longer: real, rate: real)
    requires rate > 0.0 && seconds < longer
    ensures Earned(seconds, rate) < Earned(longer, rate)
  {
  }

  lemma {:induction false} DelayEarns(missing: real, rate: real, seconds: real)
    requires rate > 0.0 && seconds >= missing / rate
    ensures Earned(seconds, rate) >= missing
  {
    var delay := missing / rate;
    assert delay * rate == missing;
    EarnedIsPositive(seconds - delay, rate);
    assert seconds * rate == (seconds - delay) * rate + delay * rate;
  }

  /** Waiting adds at most `rate` times the wait, however often the bucket was refilled in between. */
  lemma {:induction false} LevelGrows(b: Bucket, now: real, later: real)
    requires ValidBucket(b) && b.updated <= now <= later
    ensures Level(b, now) <= Level(b, later) <= Level(b, now) + Earned(later - now, b.rate)
  {
    EarnedIsPositive(later - now, b.rate);
    EarnedAdds(b.updated, now, later, b.rate);
  }

  lemma {:induction false} LevelNow(b: Bucket, now: real)
    requires b.updated == now
    ensures Level(b, now) == Least(b.capacity as real, b.tokens)
  {
    EarnedAdds(now, now, now, b.rate);
  }

  lemma {:induction false} RefillKeepsLevel(b: Bucket, now: real)
    requires ValidBucket(b) && b.updated <= now
    ensures Level(Refilled(b, now), now) == Level(b, now)
    ensures b.rate > 0.0 ==> Level(b, now) == Refilled(b, now).tokens
  {
    EarnedIsPositive(now - b.updated, b.rate);
    LevelNow(Refilled(b, now), now);
  }

  lemma {:induction false} CapacityIsPositive(b: Bucket)
    requires ValidBucket(b) && b.rate > 0.0
    ensures b.capacity > 0
  {}

  lemma {:induction false} AcquireTakesGrant(b: Bucket, requested: nat, now: real)
    requires ValidBucket(b) && b.updated <= now
    ensures var (c, grant) := Acquired(b, requested, now);
      && ValidBucket(c) && c.rate == b.rate && c.updated <= now
      && (grant.None? ==> Level(c, now) == Level(b, now))
      && (grant.Some? ==> grant.value <= requested && (requested > 0 ==> grant.value > 0))
      && (b.rate == 0.0 ==> grant == Some(requested))
      && (b.rate > 0.0 ==>
            var amount := if requested <= b.capacity then requested else b.capacity;
            grant == if Level(b, now) >= amount as real then Some(amount) else None)
      && (grant.Some? && b.rate > 0.0 ==> Level(c, now) == Level(b, now) - grant.value as real)
  {
    if b.rate > 0.0 {
      CapacityIsPositive(b);
      RefillKeepsValid(b, now);
      RefillKeepsLevel(b, now);
      LevelNow(Acquired(b, requested, now).0, now);
    }
  }

  /** A refund raises the level by the amount, up to the capacity. */
  lemma {:induction false} RefundGives(b: Bucket, amount: nat, now: real)
    requires ValidBucket(b) && b.updated <= now
    ensures var c := Refunded(b, amount, now);
      && ValidBucket(c) && c.rate == b.rate && c.updated <= now
      && (b.rate > 0.0 ==>
            Level(c, now) ==
              if Level(b, now) + amount as real <= b.capacity as real then Level(b, now) + amount as real
              else b.capacity as real)
      && (b.rate == 0.0 ==> c == b)
  {
    if amount > 0 && b.rate > 0.0 {
      RefillKeepsValid(b, now);
      RefillKeepsLevel(b, now);
      LevelNow(Refunded(b, amount, now), now);
    }
  }

  // ----- the pumps -----

  type Byte = bv8

  datatype Direction = Up | Down

  datatype Stage =
    | Looping                                 // at the head of the loop, or waiting in `acquire`
    | Granted(grant: nat)                     // about to send up to `grant` bytes
    | Refunding(amount: nat, sent: nat, ends: bool)
    | Recording(sent: nat)
    | Ended

  /** `received` and `output` are all bytes read from the source and accepted by the target. */
  datatype Pump = Pump(
    direction: Direction,
    stage: Stage,
    pending: seq<Byte>,
    offset: nat,
    received: seq<Byte>,
    output: seq<Byte>,
    halfClosed: bool)

  datatype Proxy = Proxy(bucket: Bucket, now: real, pumps: seq<Pump>, downBytes: nat, upBytes: nat)

  datatype Action =
    | Tick(seconds: real)
    | Begin(direction: Direction)
    | Receive(i: nat, chunk: seq<Byte>)   // an empty chunk is the end of the input
    | Acquire(i: nat)
    | Send(i: nat, sent: nat)
    | SendBlocks(i: nat)
    | SendFails(i: nat)                   // an error, or a send that accepted nothing
    | Refund(i: nat)
    | Record(i: nat)
    | Leave(i: nat)                       // a stop was seen, or a socket failed, at the head of the loop

  function Start(rate: real, now: real): Proxy
    requires rate >= 0.0
  {
    Proxy(Bucket(rate, Capacity(rate), Capacity(rate) as real, now), now, [], 0, 0)
  }

  function With(w: Proxy, i: nat, p: Pump): Proxy
    requires i < |w.pumps|
  {
    w.(pumps := w.pumps[i := p])
  }

  /** A download gives back what it did not send; an upload has nothing to give back. */
  function GiveBack(p: Pump, amount: nat, sent: nat, ends: bool): Pump {
    p.(stage :=
         if p.direction.Down? && amount > 0 then Refunding(amount, sent, ends)
         else if ends then Ended
         else if sent > 0 then Recording(sent) else Looping)
  }

  function Next(w: Proxy, a: Action): Proxy {
    match a
    case Tick(seconds) => if seconds >= 0.0 then w.(now := w.now + seconds) else w
    case Begin(direction) => w.(pumps := w.pumps + [Pump(direction, Looping, [], 0, [], [], false)])
    case _ => if a.i < |w.pumps| then PumpStep(w, a, w.pumps[a.i]) else w
  }

  function PumpStep(w: Proxy, a: Action, p: Pump): Proxy
    requires !a.Tick? && !a.Begin? && a.i < |w.pumps|
  {
    match (a, p.stage)
    case (Receive(i, chunk), Looping) =>
      if p.offset < |p.pending| || |chunk| > CHUNK then w
      else if chunk == [] then With(w, i, p.(pending := [], offset := 0, halfClosed := true, stage := Ended))
      else With(w, i, p.(pending := chunk, offset := 0, received := p.received + chunk))
    case (Acquire(i), Looping) =>
      if p.offset >= |p.pending| then w
      else
        var remaining := |p.pending| - p.offset;
        if p.direction.Up? then With(w, i, p.(stage := Granted(if remaining < CHUNK then remaining else CHUNK)))
        else
          var (bucket, grant) := Acquired(w.bucket, remaining, w.now);
          var v := w.(bucket := bucket);
          if grant.None? then v else With(v, i, p.(stage := if grant.value == 0 then Ended else Granted(grant.value)))
    case (Send(i, sent), Granted(grant)) =>
      if sent == 0 || sent > grant || p.offset + sent > |p.pending| then w
      else
        var q := p.(output := p.output + p.pending[p.offset..p.offset + sent]);
        With(w, i, GiveBack(q, grant - sent, sent, false))
    case (SendBlocks(i), Granted(grant)) => With(w, i, GiveBack(p, grant, 0, false))
    case (SendFails(i), Granted(grant)) => With(w, i, GiveBack(p, grant, 0, true))
    case (Refund(i), Refunding(amount, sent, ends)) =>
      With(w.(bucket := Refunded(w.bucket, amount, w.now)), i, GiveBack(p, 0, sent, ends))
    case (Record(i), Recording(sent)) =>
      var v := if p.direction.Down? then w.(downBytes := w.downBytes + sent) else w.(upBytes := w.upBytes + sent);
      With(v, i, p.(offset := p.offset + sent, stage := Looping))
    case (Leave(i), Looping) => With(w, i, p.(stage := Ended))
    case _ => w
  }

  function Run(w: Proxy, actions: seq<Action>): Proxy {
    if actions == [] then w else Next(Run(w, actions[..|actions| - 1]), actions[|actions| - 1])
  }

  // ----- what each pump keeps -----

  /** Bytes sent that `offset` and the counters do not show yet. */
  function Unrecorded(p: Pump): nat {
    if p.stage.Refunding? || p.stage.Recording? then p.stage.sent else 0
  }

  /** Bytes granted but neither sent nor given back. */
  function Outstanding(p: Pump): nat {
    if p.stage.Granted? then p.stage.grant else if p.stage.Refunding? then p.stage.amount else 0
  }

  ghost predicate PumpInv(p: Pump) {
    && p.offset + Unrecorded(p) <= |p.pending|
    && p.received == p.output + p.pending[p.offset + Unrecorded(p)..]
    && (p.stage.Granted? ==> p.offset + p.stage.grant <= |p.pending|)
    && (p.stage.Refunding? ==> p.direction.Down? && (p.stage.ends ==> p.stage.sent == 0))
    && (p.halfClosed ==> p.stage.Ended? && p.output == p.received)
  }

  ghost predicate Inv(w: Proxy) {
    && ValidBucket(w.bucket) && w.bucket.updated <= w.now
    && (forall i :: 0 <= i < |w.pumps| ==> PumpInv(w.pumps[i]))
  }

  lemma {:induction false} SendKeepsPump(p: Pump, sent: nat)
    requires PumpInv(p) && p.stage.Granted? && 0 < sent <= p.stage.grant
    ensures PumpInv(GiveBack(p.(output := p.output + p.pending[p.offset..p.offset + sent]), p.stage.grant - sent,
      sent, false))
  {
    assert p.pending[p.offset..] == p.pending[p.offset..p.offset + sent] + p.pending[p.offset + sent..];
  }

  lemma {:induction false} ReceiveKeepsPump(p: Pump, chunk: seq<Byte>)
    requires PumpInv(p) && p.stage.Looping? && p.offset >= |p.pending|
    ensures PumpInv(p.(pending := chunk, offset := 0, received := p.received + chunk))
    ensures PumpInv(p.(pending := [], offset := 0, halfClosed := true, stage := Ended))
  {
    assert p.pending[p.offset..] == [];
    assert chunk[0..] == chunk;
  }

  lemma {:induction false} AcquireKeepsPump(w: Proxy, i: nat)
    requires Inv(w) && i < |w.pumps|
    ensures PumpInv(Next(w, Acquire(i)).pumps[i])
  {
    assert PumpInv(w.pumps[i]);
    AcquireTakesGrant(w.bucket, Remaining(w.pumps[i]), w.now);
  }

  lemma {:induction false} OthersKeepPump(w: Proxy, a: Action)
    requires a.Refund? || a.Record? || a.SendBlocks? || a.SendFails? || a.Leave?
    requires a.i < |w.pumps| && PumpInv(w.pumps[a.i])
    ensures PumpInv(Next(w, a).pumps[a.i])
  {}

  lemma {:induction false} OtherPumpStays(w: Proxy, a: Action, i: nat)
    requires i < |Next(w, a).pumps| && (a.Tick? || a.Begin? || a.i != i)
    ensures if i < |w.pumps| then Next(w, a).pumps[i] == w.pumps[i] else a.Begin? && PumpInv(Next(w, a).pumps[i])
  {}

  lemma {:induction false} NextKeepsPumps(w: Proxy, a: Action, i: nat)
    requires Inv(w) && i < |Next(w, a).pumps|
    ensures PumpInv(Next(w, a).pumps[i])
  {
    if a.Tick? || a.Begin? || a.i != i {
      OtherPumpStays(w, a, i);
    } else {
      var p := w.pumps[i];
      match a
      case Send(_, sent) =>
        if p.stage.Granted? && 0 < sent <= p.stage.grant {
          SendKeepsPump(p, sent);
        }
      case Receive(_, chunk) =>
        if p.stage.Looping? && p.offset >= |p.pending| {
          ReceiveKeepsPump(p, chunk);
        }
      case Acquire(_) => AcquireKeepsPump(w, i);
      case _ => OthersKeepPump(w, a);
    }
  }

  function Remaining(p: Pump): nat {
    if p.offset < |p.pending| then |p.pending| - p.offset else 0
  }

  lemma {:induction false} NextKeepsBucket(w: Proxy, a: Action)
    requires Inv(w)
    ensures ValidBucket(Next(w, a).bucket) && Next(w, a).bucket.updated <= Next(w, a).now
  {
    if a.Acquire? && a.i < |w.pumps| {
      AcquireTakesGrant(w.bucket, Remaining(w.pumps[a.i]), w.now);
    } else if a.Refund? && a.i < |w.pumps| {
      RefundGives(w.bucket, Outstanding(w.pumps[a.i]), w.now);
    }
  }

  lemma {:induction false} RunKeepsInv(w: Proxy, actions: seq<Action>)
    requires Inv(w)
    ensures Inv(Run(w, actions))
  {
    if actions != [] {
      var v, a := Run(w, actions[..|actions| - 1]), actions[|actions| - 1];
      RunKeepsInv(w, actions[..|actions| - 1]);
      NextKeepsBucket(v, a);
      forall i | 0 <= i < |Next(v, a).pumps| ensures PumpInv(Next(v, a).pumps[i]) {
        NextKeepsPumps(v, a, i);
      }
    }
  }

  /** In every run each pump's output is a prefix of its input, all of it if the target was half-closed. */
  lemma {:induction false} OutputIsPrefix(rate: real, now: real, actions: seq<Action>, i: nat)
    requires rate >= 0.0 && i < |Run(Start(rate, now), actions).pumps|
    ensures var p := Run(Start(rate, now), actions).pumps[i];
      && p.output <= p.received
      && (p.halfClosed ==> p.output == p.received)
  {
    RunKeepsInv(Start(rate, now), actions);
    assert PumpInv(Run(Start(rate, now), actions).pumps[i]);
  }

  /** In every run the tokens stay between none and the capacity. */
  lemma {:induction false} TokensStayBounded(rate: real, now: real, actions: seq<Action>)
    requires rate >= 0.0
    ensures var b := Run(Start(rate, now), actions).bucket; 0.0 <= b.tokens <= b.capacity as real <= CHUNK as real
  {
    RunKeepsInv(Start(rate, now), actions);
  }

  /** What a granted download does not send is given back, whole, up to the capacity; an upload had nothing. */
  lemma {:induction false} UnsentIsGivenBack(w: Proxy, i: nat, a: Action)
    requires Inv(w) && i < |w.pumps| && w.pumps[i].stage.Granted?
    requires a == SendBlocks(i) || a == SendFails(i) || (a.Send? && a.i == i && 0 < a.sent <= w.pumps[i].stage.grant)
    ensures var v, sent := Next(Next(w, a), Refund(i)), if a.Send? then a.sent else 0;
      var left := Level(w.bucket, w.now) + (w.pumps[i].stage.grant - sent) as real;
      && (w.pumps[i].direction.Down? && w.bucket.rate > 0.0 ==>
            Level(v.bucket, w.now) == if left <= w.bucket.capacity as real then left else w.bucket.capacity as real)
      && (w.pumps[i].direction.Up? ==> v.bucket == w.bucket)
      && v.pumps[i].stage == if a.SendFails? then Ended else if sent > 0 then Recording(sent) else Looping
  {
    var unsent := w.pumps[i].stage.grant - if a.Send? then a.sent else 0;
    if w.pumps[i].direction.Down? {
      if unsent > 0 {
        RefundGives(w.bucket, unsent, w.now);
      } else {
        RefillKeepsLevel(w.bucket, w.now);
      }
    }
  }

  // ----- the rate -----

  /** A sum over the pumps of one direction. */
  function Total(pumps: seq<Pump>, d: Direction, measure: Pump -> nat): nat {
    if pumps == [] then 0
    else
      Total(pumps[..|pumps| - 1], d, measure)
      + (if pumps[|pumps| - 1].direction == d then measure(pumps[|pumps| - 1]) else 0)
  }

  function Share(p: Pump, d: Direction, measure: Pump -> nat): nat {
    if p.direction == d then measure(p) else 0
  }

  lemma {:induction false} TotalUpdate(pumps: seq<Pump>, d: Direction, measure: Pump -> nat, i: nat, p: Pump)
    requires i < |pumps|
    ensures Total(pumps[i := p], d, measure) + Share(pumps[i], d, measure)
      == Total(pumps, d, measure) + Share(p, d, measure)
  {
    var n := |pumps| - 1;
    if i == n {
      assert pumps[i := p][..n] == pumps[..n];
    } else {
      TotalUpdate(pumps[..n], d, measure, i, p);
      assert pumps[i := p][..n] == pumps[..n][i := p];
    }
  }

  lemma {:induction false} TotalIsSum(pumps: seq<Pump>, d: Direction, f: Pump -> nat, g: Pump -> nat, h: Pump -> nat)
    requires forall p :: h(p) == f(p) + g(p)
    ensures Total(pumps, d, h) == Total(pumps, d, f) + Total(pumps, d, g)
  {
    if pumps != [] {
      TotalIsSum(pumps[..|pumps| - 1], d, f, g, h);
    }
  }

  function Sent(p: Pump): nat { |p.output| }

  /** Bytes a pump has sent or may still send with what it was granted. */
  function Charge(p: Pump): nat { |p.output| + Outstanding(p) }

  function DownSent(w: Proxy): nat { Total(w.pumps, Down, Sent) }

  function DownOutstanding(w: Proxy): nat { Total(w.pumps, Down, Outstanding) }

  function DownCharge(w: Proxy): nat { Total(w.pumps, Down, Charge) }

  /** A step changes the sum by what it changes in the one pump it moves. */
  lemma {:induction false} StepChangesOne(w: Proxy, a: Action, d: Direction, measure: Pump -> nat)
    requires !a.Tick? && !a.Begin? && a.i < |w.pumps|
    ensures var v := Next(w, a);
      |v.pumps| == |w.pumps|
      && Total(v.pumps, d, measure) + Share(w.pumps[a.i], d, measure)
        == Total(w.pumps, d, measure) + Share(v.pumps[a.i], d, measure)
  {
    var v := Next(w, a);
    assert v.pumps == w.pumps[a.i := v.pumps[a.i]];
    TotalUpdate(w.pumps, d, measure, a.i, v.pumps[a.i]);
  }

  lemma {:induction false} BeginAddsNothing(w: Proxy, direction: Direction, d: Direction, measure: Pump -> nat)
    requires measure(Pump(direction, Looping, [], 0, [], [], false)) == 0
    ensures Total(Next(w, Begin(direction)).pumps, d, measure) == Total(w.pumps, d, measure)
  {
    var v := Next(w, Begin(direction));
    assert v.pumps[..|v.pumps| - 1] == w.pumps;
  }

  /** What the bucket holds and what was charged to it. */
  function Credit(w: Proxy): real {
    Level(w.bucket, w.now) + DownCharge(w) as real
  }

  ghost predicate Paid(w: Proxy, v: Proxy) {
    && v.bucket.rate == w.bucket.rate && w.now <= v.now
    && Credit(v) <= Credit(w) + Earned(v.now - w.now, w.bucket.rate)
  }

  lemma {:induction false} PaidInTurn(w: Proxy, u: Proxy, v: Proxy)
    requires Paid(w, u) && Paid(u, v)
    ensures Paid(w, v)
  {
    EarnedAdds(w.now, u.now, v.now, w.bucket.rate);
  }

  lemma {:induction false} PaidAtOnce(w: Proxy, v: Proxy)
    requires v.bucket.rate == w.bucket.rate && w.now == v.now && Credit(v) <= Credit(w)
    ensures Paid(w, v)
  {
    EarnedAdds(w.now, w.now, w.now, w.bucket.rate);
  }

  lemma {:induction false} TickIsPaid(w: Proxy, v: Proxy)
    requires ValidBucket(w.bucket) && w.bucket.updated <= w.now <= v.now && v == w.(now := v.now)
    ensures Paid(w, v)
  {
    LevelGrows(w.bucket, w.now, v.now);
  }

  lemma {:induction false} AcquireIsPaid(w: Proxy, i: nat)
    requires Inv(w) && w.bucket.rate > 0.0 && i < |w.pumps|
    ensures var v := Next(w, Acquire(i));
      && |v.pumps| == |w.pumps| && v.bucket.rate == w.bucket.rate && v.now == w.now
      && Level(v.bucket, w.now) + Share(v.pumps[i], Down, Charge) as real
        <= Level(w.bucket, w.now) + Share(w.pumps[i], Down, Charge) as real
  {
    AcquireTakesGrant(w.bucket, Remaining(w.pumps[i]), w.now);
  }

  lemma {:induction false} RefundIsPaid(w: Proxy, i: nat)
    requires Inv(w) && w.bucket.rate > 0.0 && i < |w.pumps|
    ensures var v := Next(w, Refund(i));
      && |v.pumps| == |w.pumps| && v.bucket.rate == w.bucket.rate && v.now == w.now
      && Level(v.bucket, w.now) + Share(v.pumps[i], Down, Charge) as real
        <= Level(w.bucket, w.now) + Share(w.pumps[i], Down, Charge) as real
  {
    assert PumpInv(w.pumps[i]);
    RefundGives(w.bucket, Outstanding(w.pumps[i]), w.now);
  }

  lemma {:induction false} OthersAreFree(w: Proxy, a: Action)
    requires Inv(w) && !a.Tick? && !a.Begin? && !a.Acquire? && !a.Refund? && a.i < |w.pumps|
    ensures var v := Next(w, a);
      && |v.pumps| == |w.pumps| && v.bucket == w.bucket && v.now == w.now
      && Share(v.pumps[a.i], Down, Charge) <= Share(w.pumps[a.i], Down, Charge)
  {
    assert PumpInv(w.pumps[a.i]);
  }

  lemma {:induction false} ChargeMoves(w: Proxy, v: Proxy, before: nat, after: nat)
    requires v.bucket.rate == w.bucket.rate && w.now == v.now
    requires DownCharge(v) + before == DownCharge(w) + after
    requires Level(v.bucket, w.now) + after as real <= Level(w.bucket, w.now) + before as real
    ensures Paid(w, v)
  {
    PaidAtOnce(w, v);
  }

  lemma {:induction false} StepIsPaid(w: Proxy, a: Action)
    requires Inv(w) && w.bucket.rate > 0.0
    ensures Paid(w, Next(w, a))
  {
    if a.Tick? && a.seconds >= 0.0 {
      TickIsPaid(w, Next(w, a));
    } else if a.Begin? {
      BeginAddsNothing(w, a.direction, Down, Charge);
      PaidAtOnce(w, Next(w, a));
    } else if a.Tick? || a.i >= |w.pumps| {
      PaidAtOnce(w, Next(w, a));
    } else {
      PumpIsPaid(w, a);
    }
  }

  lemma {:induction false} PumpIsPaid(w: Proxy, a: Action)
    requires Inv(w) && w.bucket.rate > 0.0 && !a.Tick? && !a.Begin? && a.i < |w.pumps|
    ensures Paid(w, Next(w, a))
  {
    if a.Acquire? {
      AcquireIsPaid(w, a.i);
    } else if a.Refund? {
      RefundIsPaid(w, a.i);
    } else {
      OthersAreFree(w, a);
    }
    StepChangesOne(w, a, Down, Charge);
    ChargeMoves(w, Next(w, a), Share(w.pumps[a.i], Down, Charge), Share(Next(w, a).pumps[a.i], Down, Charge));
  }

  lemma {:induction false} RunIsPaid(w: Proxy, actions: seq<Action>)
    requires Inv(w) && w.bucket.rate > 0.0
    ensures Paid(w, Run(w, actions))
  {
    if actions == [] {
      PaidAtOnce(w, w);
    } else {
      var earlier := actions[..|actions| - 1];
      RunIsPaid(w, earlier);
      RunKeepsInv(w, earlier);
      StepIsPaid(Run(w, earlier), actions[|actions| - 1]);
      PaidInTurn(w, Run(w, earlier), Run(w, actions));
    }
  }

  lemma {:induction false} CreditBounds(w: Proxy)
    requires Inv(w)
    ensures DownSent(w) as real + DownOutstanding(w) as real <= Credit(w)
    ensures Credit(w) <= DownSent(w) as real + DownOutstanding(w) as real + w.bucket.capacity as real
  {
    LevelIsBounded(w.bucket, w.now);
    TotalIsSum(w.pumps, Down, Sent, Outstanding, Charge);
  }

  lemma {:induction false} LevelIsBounded(b: Bucket, now: real)
    requires ValidBucket(b) && b.updated <= now
    ensures 0.0 <= Level(b, now) <= b.capacity as real
  {
    EarnedIsPositive(now - b.updated, b.rate);
  }

  lemma {:induction false} BucketIsFixed(w: Proxy, actions: seq<Action>)
    ensures Run(w, actions).bucket.rate == w.bucket.rate && Run(w, actions).bucket.capacity == w.bucket.capacity
  {
    if actions != [] {
      BucketIsFixed(w, actions[..|actions| - 1]);
    }
  }

  /**
   In any stretch of any run, the downloads send at most the burst, what they had been granted
   before it, and `rate` times its length.
   */
  lemma {:induction false} RateIsKept(rate: real, now: real, before: seq<Action>, during: seq<Action>)
    requires rate > 0.0
    ensures var w := Run(Start(rate, now), before);
      var v := Run(w, during);
      DownSent(v) as real
        <= DownSent(w) as real + DownOutstanding(w) as real + Capacity(rate) as real + Earned(v.now - w.now, rate)
  {
    var w := Run(Start(rate, now), before);
    RunKeepsInv(Start(rate, now), before);
    RunIsPaid(Start(rate, now), before);
    RunKeepsInv(w, during);
    RunIsPaid(w, during);
    CreditBounds(w);
    CreditBounds(Run(w, during));
    BucketIsFixed(Start(rate, now), before);
  }

  /** From its start on, the proxy sends at most the burst and `rate` times the time it has run. */
  lemma {:induction false} RateIsKeptFromStart(rate: real, now: real, actions: seq<Action>)
    requires rate > 0.0
    ensures var v := Run(Start(rate, now), actions);
      DownSent(v) as real <= Capacity(rate) as real + Earned(v.now - now, rate)
  {
    RateIsKept(rate, now, [], actions);
    assert Run(Start(rate, now), []) == Start(rate, now);
  }

  // ----- the counters -----

  function Counted(w: Proxy, d: Direction): nat {
    if d.Down? then w.downBytes else w.upBytes
  }

  lemma {:induction false} StepCounts(w: Proxy, a: Action, d: Direction)
    requires Inv(w) && !a.Tick? && !a.Begin? && a.i < |w.pumps|
    ensures var v := Next(w, a);
      && |v.pumps| == |w.pumps|
      && Counted(v, d) + Share(v.pumps[a.i], d, Unrecorded) + Share(w.pumps[a.i], d, Sent)
         == Counted(w, d) + Share(w.pumps[a.i], d, Unrecorded) + Share(v.pumps[a.i], d, Sent)
  {
    assert PumpInv(w.pumps[a.i]);
  }

  /** The counters and the sends not recorded yet add up to the bytes that the targets accepted. */
  lemma {:induction false} CountersAreExact(rate: real, now: real, actions: seq<Action>, d: Direction)
    requires rate >= 0.0
    ensures var w := Run(Start(rate, now), actions);
      Counted(w, d) + Total(w.pumps, d, Unrecorded) == Total(w.pumps, d, Sent)
  {
    if actions != [] {
      CountersAreExact(rate, now, actions[..|actions| - 1], d);
      RunKeepsInv(Start(rate, now), actions[..|actions| - 1]);
      NextCounts(Run(Start(rate, now), actions[..|actions| - 1]), actions[|actions| - 1], d);
    }
  }

  lemma {:induction false} NextCounts(w: Proxy, a: Action, d: Direction)
    requires Inv(w) && Counted(w, d) + Total(w.pumps, d, Unrecorded) == Total(w.pumps, d, Sent)
    ensures var v := Next(w, a); Counted(v, d) + Total(v.pumps, d, Unrecorded) == Total(v.pumps, d, Sent)
  {
    if a.Begin? {
      BeginAddsNothing(w, a.direction, d, Unrecorded);
      BeginAddsNothing(w, a.direction, d, Sent);
    } else if !a.Tick? && a.i < |w.pumps| {
      StepChangesOne(w, a, d, Unrecorded);
      StepChangesOne(w, a, d, Sent);
      StepCounts(w, a, d);
    }
  }

  // ----- everything can get through -----

  lemma {:induction false} RunThen(w: Proxy, actions: seq<Action>, a: Action)
    ensures Run(w, actions + [a]) == Next(Run(w, actions), a)
  {
    assert (actions + [a])[..|actions|] == actions;
  }

  lemma {:induction false} RunOn(w: Proxy, first: seq<Action>, second: seq<Action>)
    ensures Run(w, first + second) == Run(Run(w, first), second)
  {
    if second == [] {
      assert first + second == first;
    } else {
      var n := |second| - 1;
      RunOn(w, first, second[..n]);
      RunThen(w, first + second[..n], second[n]);
      assert first + second == first + second[..n] + [second[n]];
    }
  }

  lemma {:induction false} RunFour(w: Proxy, a: Action, b: Action, c: Action, d: Action)
    ensures Run(w, [a, b, c, d]) == Next(Next(Next(Next(w, a), b), c), d)
  {
    RunThen(w, [], a);
    RunThen(w, [a], b);
    RunThen(w, [a, b], c);
    RunThen(w, [a, b, c], d);
    assert [] + [a] == [a] && [a] + [b] == [a, b];
    assert [a, b] + [c] == [a, b, c] && [a, b, c] + [d] == [a, b, c, d];
  }

  predicate AtHead(w: Proxy, i: nat) {
    i < |w.pumps| && w.pumps[i].stage.Looping?
  }

  /** Only pump `i` has moved. */
  predicate OnlyMoved(w: Proxy, v: Proxy, i: nat, p: Pump) {
    i < |w.pumps| && v.pumps == w.pumps[i := p]
  }

  /** After a wait that refills the bucket, the next turn of `acquire` grants something. */
  lemma {:induction false} WaitIsEnough(b: Bucket, requested: nat, now: real) returns (wait: real)
    requires ValidBucket(b) && b.updated <= now && requested > 0
    ensures wait >= 0.0
    ensures var grant := Acquired(b, requested, now + wait).1; grant.Some? && 0 < grant.value <= requested
  {
    wait := if b.rate == 0.0 then 0.0 else b.capacity as real / b.rate;
    var later := now + wait;
    if b.rate > 0.0 {
      CapacityIsPositive(b);
      DelayEarns(b.capacity as real, b.rate, wait);
      EarnedIsPositive(now - b.updated, b.rate);
      EarnedAdds(b.updated, now, later, b.rate);
    }
    AcquireTakesGrant(b, requested, later);
  }

  lemma {:induction false} GetsGrant(w: Proxy, i: nat) returns (wait: real, grant: nat)
    requires Inv(w) && AtHead(w, i) && w.pumps[i].offset < |w.pumps[i].pending|
    ensures wait >= 0.0 && 0 < grant <= Remaining(w.pumps[i])
    ensures OnlyMoved(w, Next(Next(w, Tick(wait)), Acquire(i)), i, w.pumps[i].(stage := Granted(grant)))
  {
    var p := w.pumps[i];
    if p.direction.Up? {
      wait, grant := 0.0, if Remaining(p) < CHUNK then Remaining(p) else CHUNK;
    } else {
      wait := WaitIsEnough(w.bucket, Remaining(p), w.now);
      grant := Acquired(w.bucket, Remaining(p), w.now + wait).1.value;
    }
  }

  lemma {:induction false} SendsGrant(w: Proxy, i: nat, p: Pump, grant: nat)
    requires i < |w.pumps| && w.pumps[i] == p.(stage := Granted(grant))
    requires 0 < grant <= Remaining(p)
    ensures OnlyMoved(w, Next(Next(w, Send(i, grant)), Record(i)), i, p.(
      stage := Looping, offset := p.offset + grant, output := p.output + p.pending[p.offset..p.offset + grant]))
  {
    var q := p.(stage := Recording(grant), output := p.output + p.pending[p.offset..p.offset + grant]);
    assert Next(w, Send(i, grant)) == With(w, i, q);
  }

  /** A pump with bytes pending can send some of them. */
  lemma {:induction false} SendsSome(w: Proxy, i: nat) returns (actions: seq<Action>, n: nat)
    requires Inv(w) && AtHead(w, i) && w.pumps[i].offset < |w.pumps[i].pending|
    ensures var p := w.pumps[i];
      && p.offset < n <= |p.pending|
      && OnlyMoved(w, Run(w, actions), i, p.(offset := n, output := p.output + p.pending[p.offset..n]))
  {
    var wait, grant := GetsGrant(w, i);
    actions, n := [Tick(wait), Acquire(i), Send(i, grant), Record(i)], w.pumps[i].offset + grant;
    RunFour(w, Tick(wait), Acquire(i), Send(i, grant), Record(i));
    SendsGrant(Next(Next(w, Tick(wait)), Acquire(i)), i, w.pumps[i], grant);
  }

  /** And so all of them. */
  lemma {:induction false} SendsAll(w: Proxy, i: nat) returns (actions: seq<Action>)
    requires Inv(w) && AtHead(w, i)
    ensures var p := w.pumps[i];
      OnlyMoved(w, Run(w, actions), i, p.(offset := |p.pending|, output := p.received))
    decreases if AtHead(w, i) then Remaining(w.pumps[i]) else 0
  {
    var p := w.pumps[i];
    assert PumpInv(p);
    if p.offset == |p.pending| {
      actions := [];
      assert p.output == p.received;
      return;
    }
    var first, n := SendsSome(w, i);
    RunKeepsInv(w, first);
    var more := SendsAll(Run(w, first), i);
    RunOn(w, first, more);
    actions := first + more;
  }

  function Flat(chunks: seq<seq<Byte>>): seq<Byte> {
    if chunks == [] then [] else Flat(chunks[..|chunks| - 1]) + chunks[|chunks| - 1]
  }

  /** Pump `i` alone has moved: it has read `input` and sent everything. */
  ghost predicate Copied(w: Proxy, v: Proxy, i: nat, input: seq<Byte>) {
    && Inv(v) && AtHead(v, i) && OnlyMoved(w, v, i, v.pumps[i])
    && v.pumps[i].offset == |v.pumps[i].pending|
    && v.pumps[i].received == v.pumps[i].output == w.pumps[i].received + input
  }

  lemma {:induction false} CopiesOne(w: Proxy, i: nat, chunk: seq<Byte>) returns (actions: seq<Action>)
    requires Inv(w) && AtHead(w, i) && w.pumps[i].offset == |w.pumps[i].pending| && 0 < |chunk| <= CHUNK
    ensures Copied(w, Run(w, actions), i, chunk)
  {
    var u := Next(w, Receive(i, chunk));
    assert OnlyMoved(w, u, i, w.pumps[i].(pending := chunk, offset := 0, received := w.pumps[i].received + chunk));
    RunThen(w, [], Receive(i, chunk));
    assert [] + [Receive(i, chunk)] == [Receive(i, chunk)];
    RunKeepsInv(w, [Receive(i, chunk)]);
    var more := SendsAll(u, i);
    RunOn(w, [Receive(i, chunk)], more);
    actions := [Receive(i, chunk)] + more;
    RunKeepsInv(w, actions);
  }

  lemma {:induction false} CopiesChunks(w: Proxy, i: nat, chunks: seq<seq<Byte>>) returns (actions: seq<Action>)
    requires Inv(w) && AtHead(w, i) && forall k :: 0 <= k < |chunks| ==> 0 < |chunks[k]| <= CHUNK
    ensures Copied(w, Run(w, actions), i, Flat(chunks))
  {
    if chunks == [] {
      actions := SendsAll(w, i);
      RunKeepsInv(w, actions);
      return;
    }
    var n := |chunks| - 1;
    var front := CopiesChunks(w, i, chunks[..n]);
    var more := CopiesOne(Run(w, front), i, chunks[n]);
    RunOn(w, front, more);
    actions := front + more;
    CopiedOn(w, Run(w, front), Run(w, actions), i, Flat(chunks[..n]), chunks[n]);
  }

  lemma {:induction false} CopiedOn(
      w: Proxy, v: Proxy, u: Proxy, i: nat, first: seq<Byte>, second: seq<Byte>)
    requires i < |w.pumps| && Copied(w, v, i, first) && Copied(v, u, i, second)
    ensures Copied(w, u, i, first + second)
  {
    var received := w.pumps[i].received;
    assert received + first + second == received + (first + second);
  }

  /**
   From every state, whatever the other pumps are in the middle of, a pump at the head of its loop can
   copy any further input whole and close the target after it.
   */
  lemma {:induction false} CopyCompletes(w: Proxy, i: nat, chunks: seq<seq<Byte>>) returns (actions: seq<Action>)
    requires Inv(w) && AtHead(w, i) && forall k :: 0 <= k < |chunks| ==> 0 < |chunks[k]| <= 65536
    ensures var v, p := Run(w, actions), w.pumps[i];
      && |v.pumps| == |w.pumps| && (forall j :: 0 <= j < |v.pumps| && j != i ==> v.pumps[j] == w.pumps[j])
      && v.pumps[i].halfClosed && v.pumps[i].stage.Ended?
      && v.pumps[i].output == p.received + Flat(chunks)
  {
    var copy := CopiesChunks(w, i, chunks);
    RunThen(w, copy, Receive(i, []));
    actions := copy + [Receive(i, [])];
  }
}
