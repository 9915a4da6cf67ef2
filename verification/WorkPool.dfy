/** The bounded pool of buffers that circulates between the thread that feeds
    samples and the thread that sends them to the client. */
module WorkPool {
  import opened Wrappers

  /** A buffer and its valid contents. */
  datatype Buffer = Buffer(id: nat, data: seq<int>)

  /** The shared part of the pool. */
  datatype Pool = Pool(queues: seq<seq<Buffer>>, elements: nat, maxElements: nat)

  /** queue_pop() on queue id, under its mutex */
  function Popped(p: Pool, id: nat): (Option<Buffer>, Pool)
    requires id < |p.queues|
  {
    if p.queues[id] == [] then (None, p)
    else (Some(p.queues[id][0]), p.(queues := p.queues[id := p.queues[id][1..]]))
  }

  /** add() */
  function Added(p: Pool, id: nat, b: Buffer): Pool
    requires id < |p.queues|
  {
    p.(queues := p.queues[id := p.queues[id] + [b]])
  }

  /** The allocation in pool_get_wait_lock() */
  function Allocated(p: Pool): (Buffer, Pool) {
    (Buffer(p.elements, []), p.(elements := p.elements + 1))
  }

  /** pool_get_unlock(): behind the last queue a buffer is emptied and starts again */
  function Unlocked(p: Pool, id: nat, b: Buffer): Pool
    requires id < |p.queues|
  {
    if id == |p.queues| - 1 then Added(p, 0, b.(data := [])) else Added(p, id + 1, b)
  }

  class WorkPool {
    var queues: seq<seq<Buffer>>
    var elements: nat
    const maxElements: nat
    var valid: bool

    function Data(): Pool
      reads this
    {
      Pool(queues, elements, maxElements)
    }

    /** pool_init() */
    constructor (maxElements: nat)
      ensures !valid && Data() == Pool([], 0, maxElements)
    {
      queues, elements, valid := [], 0, false;
      this.maxElements := maxElements;
    }

    /** pop(); arrivals are what other threads add while it waits */
    method Pop(id: nat, block: bool, arrivals: seq<Buffer>) returns (result: Option<Buffer>)
      requires valid ==> id < |queues|
      modifies `queues
      ensures !valid ==> result.None? && Data() == old(Data())
      ensures valid && old(queues[id]) != [] ==> (result, Data()) == Popped(old(Data()), id)
      ensures valid && old(queues[id]) == [] && !block ==> result.None? && Data() == old(Data())
      ensures valid && old(queues[id]) == [] && block
              ==> (result, Data()) == Popped(old(Data()).(queues := old(queues)[id := arrivals]), id)
    {
      result := None;
      if !valid {
        return;
      }
      result := QueuePop(id);
      if result.None? && block {
        queues := queues[id := arrivals];
        result := QueuePop(id);
      }
    }

    method QueuePop(id: nat) returns (result: Option<Buffer>)
      requires id < |queues|
      modifies `queues
      ensures (result, Data()) == Popped(old(Data()), id)
    {
      if queues[id] == [] {
        return None;
      }
      result := Some(queues[id][0]);
      queues := queues[id := queues[id][1..]];
    }

    /** pool_get_wait_lock() */
    method GetWaitLock(id: nat, block: bool, arrivals: seq<Buffer>) returns (result: Option<Buffer>)
      requires valid ==> id < |queues|
      modifies `queues, `elements
      ensures !valid ==> result.None? && Data() == old(Data())
      ensures valid && old(queues[id]) != [] ==> (result, Data()) == Popped(old(Data()), id)
      ensures valid && old(queues[id]) == [] && id == 0 && old(elements) < maxElements
              ==> result == Some(Allocated(old(Data())).0) && Data() == Allocated(old(Data())).1
      ensures valid && old(queues[id]) == [] && !(id == 0 && old(elements) < maxElements)
              ==> if block then (result, Data()) == Popped(old(Data()).(queues := old(queues)[id := arrivals]), id)
                  else result.None? && Data() == old(Data())
      ensures old(elements) <= maxElements ==> elements <= maxElements
    {
      result := None;
      if !valid {
        return;
      }
      result := Pop(id, false, []);
      if result.None? {
        if id == 0 && elements < maxElements {
          result := Some(Buffer(elements, []));
          elements := elements + 1;
        } else if block {
          result := Pop(id, true, arrivals);
        }
      }
    }

    /** pool_get_unlock() */
    method GetUnlock(id: nat, buffer: Buffer)
      requires valid ==> id < |queues|
      modifies `queues
      ensures !valid ==> queues == old(queues)
      ensures valid ==> |queues| == |old(queues)| && forall k | 0 <= k < |queues| ::
                          queues[k] == old(queues)[k] + if k != (id + 1) % |queues| then [] else
                                                        [if k == 0 then buffer.(data := []) else buffer]
    {
      assert forall q: seq<Buffer> :: q + [] == q;
      if !valid {
        return;
      }
      if id == |queues| - 1 {
        Add(0, buffer.(data := []));
      } else {
        Add(id + 1, buffer);
      }
    }

    method Add(id: nat, buffer: Buffer)
      requires valid && id < |queues|
      modifies `queues
      ensures Data() == Added(old(Data()), id, buffer)
    {
      queues := queues[id := queues[id] + [buffer]];
    }

    /** pool_free(); freed counts the buffers that go back to the system */
    method Free() returns (freed: nat)
      modifies this
      ensures !valid && queues == [] && freed == Total(old(queues))
      ensures old(queues) == [] ==> elements == old(elements)
      ensures old(queues) != [] ==> elements == 0
    {
      freed := 0;
      if |queues| > 0 {
        var i := 0;
        var n := |queues|;
        while i < n
          invariant 0 <= i <= n == |queues| == |old(queues)| && queues[i..] == old(queues)[i..]
          invariant freed + Total(queues[i..]) == Total(old(queues))
        {
          while queues[i] != []
            invariant |queues| == n && queues[i + 1..] == old(queues)[i + 1..]
            invariant freed + |queues[i]| + Total(queues[i + 1..]) == Total(old(queues))
            decreases |queues[i]|
          {
            queues := queues[i := queues[i][1..]];
            freed := freed + 1;
          }
          i := i + 1;
        }
        queues := [];
        elements := 0;
      }
      valid := false;
    }

    /** pool_set_threads() */
    method SetThreads(numberOfIds: int)
      modifies this
      ensures numberOfIds <= 0 ==> Data() == old(Data()) && valid == old(valid)
      ensures numberOfIds > 0 ==> valid && |queues| == numberOfIds && forall i | 0 <= i < |queues| :: queues[i] == []
      ensures numberOfIds > 0 && old(queues) != [] ==> elements == 0
    {
      if numberOfIds <= 0 {
        return;
      }
      var _ := Free();
      queues := seq(numberOfIds, _ => []);
      valid := true;
    }
  }

  function Total(queues: seq<seq<Buffer>>): nat {
    if queues == [] then 0 else |queues[0]| + Total(queues[1..])
  }

  // ----- the two threads of the server -----

  /** The thread in sdrtcp_feed(): next it will look for an empty buffer; allocate
      one; wait for one; or fill it and hand it over. */
  datatype Producer =
    | Away
    | Looking(block: seq<int>)
    | Missed(block: seq<int>)
    | Waiting(block: seq<int>)
    | Holding(block: seq<int>, buffer: Buffer)

  /** The thread in serveClient(): index bytes of its buffer are sent. */
  datatype Consumer =
    | Idle
    | Sending(buffer: Buffer, index: nat)
    | Returning(buffer: Buffer)

  datatype Stage = Opening | Serving | Stopped

  /** What became of a block: whether it was handed over. */
  datatype Feed = Feed(block: seq<int>, accepted: bool)

  /** fed lists the finished feeds, beginning with the header.  cut records that a
      buffer was returned with part of it unsent. */
  datatype State = State(
    pool: Pool, producer: Producer, consumer: Consumer, stage: Stage,
    fed: seq<Feed>, sent: seq<int>, cut: bool)

  predicate Init(s: State, header: seq<int>) {
    s.pool.maxElements > 0 &&
    s == State(Pool([[], []], 0, s.pool.maxElements), Looking(header), Idle, Opening, [], [], false)
  }

  /** sdrtcp_feed() and, for the header, sdrtcp_open_socket() */
  ghost predicate ProducerStep(s: State, s': State)
    requires |s.pool.queues| == 2
  {
    match s.producer
    case Away => s.stage.Serving? && exists block :: s' == s.(producer := Looking(block))
    case Looking(block) =>
      var (b, pool) := Popped(s.pool, 0);
      s' == if b.None? then s.(producer := Missed(block)) else s.(producer := Holding(block, b.value), pool := pool)
    case Missed(block) =>
      if s.pool.elements < s.pool.maxElements then
        var (b, pool) := Allocated(s.pool);
        s' == s.(producer := Holding(block, b), pool := pool)
      else s' == s.(producer := Waiting(block))
    case Waiting(block) =>
      var (b, pool) := Popped(s.pool, 0);
      if b.Some? then s' == s.(producer := Holding(block, b.value), pool := pool)
      else s' == s.(producer := Away, fed := s.fed + [Feed(block, false)]) // the wait timed out
    case Holding(block, b) =>
      s' == s.(producer := Away, pool := Unlocked(s.pool, 0, b.(data := block)), fed := s.fed + [Feed(block, true)])
  }

  /** send() takes k bytes. */
  predicate SendsPiece(s: State, s': State, k: nat)
    requires s.consumer.Sending? && s.consumer.index <= |s.consumer.buffer.data|
  {
    var Sending(b, index) := s.consumer;
    && k <= |b.data| - index
    && s' == s.(sent := s.sent + b.data[index..index + k], consumer := Sending(b, index + k))
  }

  /** serveClient() */
  ghost predicate ConsumerStep(s: State, s': State)
    requires |s.pool.queues| == 2
  {
    match s.consumer
    case Idle =>
      var (b, pool) := Popped(s.pool, 1);
      s.stage.Serving? && b.Some? && s' == s.(consumer := Sending(b.value, 0), pool := pool)
    case Sending(b, index) =>
      index <= |b.data| &&
      if index == |b.data| then s' == s.(consumer := Returning(b))
      else
        || (exists k: nat :: SendsPiece(s, s', k))
        // send() fails, or the socket is not ready in time, or the stage has changed
        || s' == s.(stage := Stopped, consumer := Returning(b), cut := true)
    case Returning(b) => s' == s.(consumer := Idle, pool := Unlocked(s.pool, 1, b))
  }

  /** The client is accepted, or someone requests a stop. */
  ghost predicate StageStep(s: State, s': State) {
    || (s.stage.Opening? && s.producer.Away? && s' == s.(stage := Serving))
    || s' == s.(stage := Stopped)
  }

  ghost predicate Next(s: State, s': State)
    requires |s.pool.queues| == 2
  {
    ProducerStep(s, s') || ConsumerStep(s, s') || StageStep(s, s')
  }

  // ----- conservation of buffers -----

  function Ids(q: seq<Buffer>): multiset<nat> {
    if q == [] then multiset{} else multiset{q[0].id} + Ids(q[1..])
  }

  lemma {:induction false} IdsAppend(q: seq<Buffer>, b: Buffer)
    ensures Ids(q + [b]) == Ids(q) + multiset{b.id}
  {
    if q == [] {
      assert q + [b] == [b];
    } else {
      IdsAppend(q[1..], b);
      assert (q + [b])[1..] == q[1..] + [b];
    }
  }

  function ProducerIds(p: Producer): multiset<nat> { if p.Holding? then multiset{p.buffer.id} else multiset{} }

  function ConsumerIds(c: Consumer): multiset<nat> { if c.Idle? then multiset{} else multiset{c.buffer.id} }

  function Range(n: nat): multiset<nat> { if n == 0 then multiset{} else Range(n - 1) + multiset{n - 1} }

  /** Every allocated buffer is in exactly one place: a queue or a hand. */
  ghost predicate Conserved(s: State) {
    && |s.pool.queues| == 2 && s.pool.elements <= s.pool.maxElements
    && Ids(s.pool.queues[0]) + Ids(s.pool.queues[1]) + ProducerIds(s.producer) + ConsumerIds(s.consumer)
       == Range(s.pool.elements)
  }

  // ----- the bytes on the wire -----

  /** The bytes of the blocks that were handed over, in the order of feeding. */
  function Accepted(fed: seq<Feed>): seq<int> {
    if fed == [] then []
    else Accepted(fed[..|fed| - 1]) + if fed[|fed| - 1].accepted then fed[|fed| - 1].block else []
  }

  function Bytes(q: seq<Buffer>): seq<int> {
    if q == [] then [] else q[0].data + Bytes(q[1..])
  }

  lemma {:induction false} BytesAppend(q: seq<Buffer>, b: Buffer)
    ensures Bytes(q + [b]) == Bytes(q) + b.data
  {
    if q == [] {
      assert q + [b] == [b];
    } else {
      BytesAppend(q[1..], b);
      assert (q + [b])[1..] == q[1..] + [b];
    }
  }

  function Unsent(c: Consumer): seq<int> {
    if c.Sending? && c.index <= |c.buffer.data| then c.buffer.data[c.index..] else []
  }

  /** What was sent, what is being sent and what is queued make up what was
      accepted; once a buffer was cut short nothing more is sent. */
  ghost predicate InOrder(s: State) {
    && |s.pool.queues| == 2
    && (s.consumer.Sending? ==> s.consumer.index <= |s.consumer.buffer.data|)
    && if s.cut then s.stage.Stopped? && !s.consumer.Sending? && s.sent <= Accepted(s.fed)
       else s.sent + Unsent(s.consumer) + Bytes(s.pool.queues[1]) == Accepted(s.fed)
  }

  ghost predicate Inv(s: State) { Conserved(s) && InOrder(s) }

  lemma InitInv(s: State, header: seq<int>)
    requires Init(s, header)
    ensures Inv(s)
  {
  }

  lemma AcceptedAppend(fed: seq<Feed>, f: Feed)
    ensures Accepted(fed + [f]) == Accepted(fed) + if f.accepted then f.block else []
  {
    assert (fed + [f])[..|fed|] == fed;
  }

  /** Taking a buffer from the front of a queue, and putting one at its end */
  lemma PopKeeps(q: seq<Buffer>)
    requires q != []
    ensures Ids(q) == multiset{q[0].id} + Ids(q[1..]) && Bytes(q) == q[0].data + Bytes(q[1..])
  {
  }

  lemma TakeInv(s: State, s': State, block: seq<int>)
    requires Inv(s) && s.pool.queues[0] != [] && !s.producer.Holding?
    requires s' == s.(producer := Holding(block, Popped(s.pool, 0).0.value), pool := Popped(s.pool, 0).1)
    ensures Inv(s')
  {
    PopKeeps(s.pool.queues[0]);
  }

  lemma AllocateInv(s: State, s': State, block: seq<int>)
    requires Inv(s) && !s.producer.Holding? && s.pool.elements < s.pool.maxElements
    requires s' == s.(producer := Holding(block, Allocated(s.pool).0), pool := Allocated(s.pool).1)
    ensures Inv(s')
  {
  }

  lemma HandOverInv(s: State, s': State, block: seq<int>, b: Buffer)
    requires Inv(s) && s.producer == Holding(block, b)
    requires s' == s.(producer := Away, pool := Unlocked(s.pool, 0, b.(data := block)),
                      fed := s.fed + [Feed(block, true)])
    ensures Inv(s')
  {
    var filled, q := b.(data := block), s.pool.queues[1];
    IdsAppend(q, filled);
    BytesAppend(q, filled);
    AcceptedAppend(s.fed, Feed(block, true));
    if !s.cut {
      Regroup(s.sent, Unsent(s.consumer), Bytes(q), block);
    }
  }

  lemma Regroup(a: seq<int>, b: seq<int>, c: seq<int>, d: seq<int>)
    ensures a + b + (c + d) == (a + b + c) + d
  {
  }

  lemma DropInv(s: State, s': State, block: seq<int>)
    requires Inv(s) && s.producer == Waiting(block)
    requires s' == s.(producer := Away, fed := s.fed + [Feed(block, false)])
    ensures Inv(s')
  {
    AcceptedAppend(s.fed, Feed(block, false));
    assert Accepted(s.fed) + [] == Accepted(s.fed);
  }

  lemma ProducerInv(s: State, s': State)
    requires Inv(s) && ProducerStep(s, s')
    ensures Inv(s')
  {
    match s.producer
    case Away =>
    case Looking(block) => if s.pool.queues[0] != [] { TakeInv(s, s', block); }
    case Missed(block) => if s.pool.elements < s.pool.maxElements { AllocateInv(s, s', block); }
    case Waiting(block) => if s.pool.queues[0] != [] { TakeInv(s, s', block); } else { DropInv(s, s', block); }
    case Holding(block, b) => HandOverInv(s, s', block, b);
  }

  lemma StartInv(s: State, s': State)
    requires Inv(s) && s.consumer.Idle? && s.stage.Serving? && s.pool.queues[1] != []
    requires s' == s.(consumer := Sending(Popped(s.pool, 1).0.value, 0), pool := Popped(s.pool, 1).1)
    ensures Inv(s')
  {
    var q := s.pool.queues[1];
    PopKeeps(q);
    assert q[0].data[0..] == q[0].data;
    Regroup([], s.sent, q[0].data, Bytes(q[1..]));
    assert s.sent + [] == s.sent && [] + s.sent == s.sent;
  }

  lemma SendInv(s: State, s': State, k: nat)
    requires Inv(s) && s.consumer.Sending? && SendsPiece(s, s', k)
    ensures Inv(s')
  {
    var d, i := s.consumer.buffer.data, s.consumer.index;
    assert d[i..] == d[i..i + k] + d[i + k..];
    assert s.sent + (d[i..i + k] + d[i + k..]) == (s.sent + d[i..i + k]) + d[i + k..];
  }

  lemma FinishInv(s: State, s': State, cut: bool)
    requires Inv(s) && s.consumer.Sending? && (cut || s.consumer.index == |s.consumer.buffer.data|)
    requires s' == if cut then s.(stage := Stopped, consumer := Returning(s.consumer.buffer), cut := true)
                   else s.(consumer := Returning(s.consumer.buffer))
    ensures Inv(s')
  {
    PrefixOfSum(s.sent, Unsent(s.consumer), Bytes(s.pool.queues[1]));
  }

  lemma ReturnInv(s: State, s': State, b: Buffer)
    requires Inv(s) && s.consumer == Returning(b) && s' == s.(consumer := Idle, pool := Unlocked(s.pool, 1, b))
    ensures Inv(s')
  {
    IdsAppend(s.pool.queues[0], b.(data := []));
  }

  lemma ConsumerInv(s: State, s': State)
    requires Inv(s) && ConsumerStep(s, s')
    ensures Inv(s')
  {
    match s.consumer
    case Idle => StartInv(s, s');
    case Sending(b, index) =>
      if index == |b.data| {
        FinishInv(s, s', false);
      } else if k: nat :| SendsPiece(s, s', k) {
        SendInv(s, s', k);
      } else {
        FinishInv(s, s', true);
      }
    case Returning(b) => ReturnInv(s, s', b);
  }

  lemma NextInv(s: State, s': State)
    requires Inv(s) && Next(s, s')
    ensures Inv(s')
  {
    if ProducerStep(s, s') {
      ProducerInv(s, s');
    } else if ConsumerStep(s, s') {
      ConsumerInv(s, s');
    }
  }

  ghost predicate IsRun(run: seq<State>, header: seq<int>) {
    && run != [] && Init(run[0], header)
    && forall i | 0 <= i < |run| - 1 :: |run[i].pool.queues| == 2 && Next(run[i], run[i + 1])
  }

  lemma {:induction false} RunInv(run: seq<State>, header: seq<int>, i: nat)
    requires IsRun(run, header) && i < |run|
    ensures Inv(run[i])
  {
    if i == 0 {
      InitInv(run[0], header);
    } else {
      RunInv(run, header, i - 1);
      NextInv(run[i - 1], run[i]);
    }
  }

  /** In every run, every allocated buffer is in exactly one queue or hand, and
      there are never more than the maximum. */
  lemma BuffersAreConserved(run: seq<State>, header: seq<int>, i: nat)
    requires IsRun(run, header) && i < |run|
    ensures Conserved(run[i])
  {
    RunInv(run, header, i);
  }

  /** In every run, the bytes sent so far are a prefix of the accepted blocks. */
  lemma SentIsPrefix(run: seq<State>, header: seq<int>, i: nat)
    requires IsRun(run, header) && i < |run|
    ensures run[i].sent <= Accepted(run[i].fed)
  {
    RunInv(run, header, i);
    var s := run[i];
    if !s.cut {
      PrefixOfSum(s.sent, Unsent(s.consumer), Bytes(s.pool.queues[1]));
    }
  }

  lemma PrefixOfSum(a: seq<int>, b: seq<int>, c: seq<int>)
    ensures a <= a + b + c
  {
  }

  /** The first finished feed is the header, and it is accepted. */
  ghost predicate HeaderFirst(s: State, header: seq<int>) {
    if s.fed != [] then s.fed[0] == Feed(header, true)
    else
      && s.pool.maxElements > 0
      && match s.producer
         case Looking(block) => block == header && s.pool.elements == 0
         case Missed(block) => block == header && s.pool.elements == 0
         case Holding(block, _) => block == header
         case _ => false
  }

  lemma ConsumerKeepsFed(s: State, s': State)
    requires |s.pool.queues| == 2 && ConsumerStep(s, s')
    ensures s'.fed == s.fed && s'.producer == s.producer
    ensures s'.pool.elements == s.pool.elements && s'.pool.maxElements == s.pool.maxElements
  {
  }

  lemma HeaderProducerStep(s: State, s': State, header: seq<int>)
    requires |s.pool.queues| == 2 && s.fed == [] && HeaderFirst(s, header) && ProducerStep(s, s')
    requires s.pool.elements == 0 ==> s.pool.queues[0] == []
    ensures HeaderFirst(s', header)
  {
  }

  lemma FedGrows(s: State, s': State)
    requires |s.pool.queues| == 2 && Next(s, s')
    ensures s.fed <= s'.fed
  {
    if ConsumerStep(s, s') { ConsumerKeepsFed(s, s'); }
  }

  lemma HeaderStep(s: State, s': State, header: seq<int>)
    requires Inv(s) && HeaderFirst(s, header) && Next(s, s')
    ensures HeaderFirst(s', header)
  {
    if s.fed != [] {
      FedGrows(s, s');
    } else if ConsumerStep(s, s') {
      ConsumerKeepsFed(s, s');
    } else if ProducerStep(s, s') {
      HeaderProducerStep(s, s', header);
    }
  }

  lemma {:induction false} HeaderStaysFirst(run: seq<State>, header: seq<int>, i: nat)
    requires IsRun(run, header) && i < |run|
    ensures HeaderFirst(run[i], header)
  {
    if i > 0 {
      HeaderStaysFirst(run, header, i - 1);
      RunInv(run, header, i - 1);
      HeaderStep(run[i - 1], run[i], header);
    }
  }

  lemma SentAndHeader(s: State, header: seq<int>)
    requires HeaderFirst(s, header) && s.sent <= Accepted(s.fed)
    ensures s.sent <= header || header <= s.sent
  {
    if s.fed != [] {
      AcceptedStarts(s.fed, header);
      assert s.sent == Accepted(s.fed)[..|s.sent|];
    }
  }

  /** In every run, the bytes on the wire begin with those of the header. */
  lemma HeaderComesFirst(run: seq<State>, header: seq<int>, i: nat)
    requires IsRun(run, header) && i < |run|
    ensures HeaderFirst(run[i], header)
    ensures run[i].sent <= header || header <= run[i].sent
  {
    HeaderStaysFirst(run, header, i);
    SentIsPrefix(run, header, i);
    SentAndHeader(run[i], header);
  }

  lemma {:induction false} AcceptedStarts(fed: seq<Feed>, header: seq<int>)
    requires fed != [] && fed[0] == Feed(header, true)
    ensures header <= Accepted(fed)
  {
    var front := fed[..|fed| - 1];
    if front == [] {
      assert Accepted(front) == [];
    } else {
      AcceptedStarts(front, header);
    }
  }

  // ----- when a feed is accepted -----

  ghost predicate IsPath(path: seq<State>) {
    path != [] && forall i | 0 <= i < |path| - 1 :: |path[i].pool.queues| == 2 && Next(path[i], path[i + 1])
  }

  /** There is a buffer for the feed: one that is empty, or room for one more. */
  predicate BufferAvailable(p: Pool) {
    |p.queues| == 2 && (p.queues[0] != [] || p.elements < p.maxElements)
  }

  /** The feed of block, which follows those in before, cannot fail any more. */
  predicate WillBeAccepted(s: State, before: seq<Feed>, block: seq<int>) {
    if s.fed == before then
      match s.producer
      case Looking(b) => b == block && BufferAvailable(s.pool)
      case Missed(b) => b == block && s.pool.elements < s.pool.maxElements
      case Holding(b, _) => b == block
      case _ => false
    else before + [Feed(block, true)] <= s.fed
  }

  lemma ConsumerKeepsBuffers(s: State, s': State)
    requires |s.pool.queues| == 2 && ConsumerStep(s, s')
    ensures |s'.pool.queues| == 2 && (s.pool.queues[0] != [] ==> s'.pool.queues[0] != [])
  {
  }

  lemma AcceptedProducerStep(s: State, s': State, before: seq<Feed>, block: seq<int>)
    requires |s.pool.queues| == 2 && s.fed == before && WillBeAccepted(s, before, block) && ProducerStep(s, s')
    ensures WillBeAccepted(s', before, block)
  {
  }

  lemma AcceptedStep(s: State, s': State, before: seq<Feed>, block: seq<int>)
    requires |s.pool.queues| == 2 && WillBeAccepted(s, before, block) && Next(s, s')
    ensures WillBeAccepted(s', before, block)
  {
    if s.fed != before {
      FedGrows(s, s');
    } else if ConsumerStep(s, s') {
      ConsumerKeepsFed(s, s');
      ConsumerKeepsBuffers(s, s');
    } else if ProducerStep(s, s') {
      AcceptedProducerStep(s, s', before, block);
    }
  }

  lemma {:induction false} AcceptedPath(path: seq<State>, before: seq<Feed>, block: seq<int>, j: nat)
    requires IsPath(path) && WillBeAccepted(path[0], before, block) && j < |path|
    ensures WillBeAccepted(path[j], before, block)
  {
    if j > 0 {
      AcceptedPath(path, before, block, j - 1);
      AcceptedStep(path[j - 1], path[j], before, block);
    }
  }

  /** Wherever path leads from its first state s, the feed after those of s is of
      block and accepted, if it has ended. */
  ghost predicate NextFeedAccepted(path: seq<State>, block: seq<int>)
    requires path != []
  {
    forall j | 0 <= j < |path| :: path[j].fed == path[0].fed || path[0].fed + [Feed(block, true)] <= path[j].fed
  }

  /** When all buffers are under way, three steps lead from the start of a feed to
      its end, which sdrtcp_feed() reports like a success, without the block. */
  lemma DropPath(s: State, block: seq<int>) returns (path: seq<State>)
    requires |s.pool.queues| == 2 && s.producer == Looking(block)
    requires s.pool.queues[0] == [] && s.pool.elements >= s.pool.maxElements
    ensures IsPath(path) && path[0] == s && |path| == 4
    ensures path[3] == s.(producer := Away, fed := s.fed + [Feed(block, false)])
    ensures Accepted(path[3].fed) == Accepted(s.fed)
  {
    var s1, s2 := s.(producer := Missed(block)), s.(producer := Waiting(block));
    var s3 := s.(producer := Away, fed := s.fed + [Feed(block, false)]);
    AcceptedAppend(s.fed, Feed(block, false));
    path := [s, s1, s2, s3];
    assert ProducerStep(s, s1) && ProducerStep(s1, s2) && ProducerStep(s2, s3);
    PathOfFour(s, s1, s2, s3);
  }

  lemma PathOfFour(s: State, s1: State, s2: State, s3: State)
    requires |s.pool.queues| == |s1.pool.queues| == |s2.pool.queues| == 2
    requires ProducerStep(s, s1) && ProducerStep(s1, s2) && ProducerStep(s2, s3)
    ensures IsPath([s, s1, s2, s3])
  {
    var path := [s, s1, s2, s3];
    forall i | 0 <= i < 3 ensures |path[i].pool.queues| == 2 && Next(path[i], path[i + 1]) {
    }
  }

  /** A feed that starts in a state of any run is accepted whatever the threads do,
      if it ends, exactly if there is a buffer for it at its start. */
  lemma FeedAcceptedIff(run: seq<State>, header: seq<int>, i: nat, block: seq<int>)
    requires IsRun(run, header) && i < |run| && run[i].producer == Looking(block)
    ensures (forall path: seq<State> | IsPath(path) && path[0] == run[i] :: NextFeedAccepted(path, block))
            <==> BufferAvailable(run[i].pool)
  {
    var s := run[i];
    RunInv(run, header, i);
    if BufferAvailable(s.pool) {
      forall path: seq<State> | IsPath(path) && path[0] == s ensures NextFeedAccepted(path, block) {
        forall j | 0 <= j < |path| ensures path[j].fed == s.fed || s.fed + [Feed(block, true)] <= path[j].fed {
          AcceptedPath(path, s.fed, block, j);
        }
      }
    } else {
      var path := DropPath(s, block);
      assert path[3].fed[|s.fed|] != Feed(block, true);
      assert !NextFeedAccepted(path, block);
    }
  }

  // ----- a run in which a feed is dropped -----

  /** All buffers are filled and queued, and the producer is away. */
  predicate Filled(s: State) {
    && |s.pool.queues| == 2 && s.pool.queues[0] == [] && s.producer.Away? && s.consumer.Idle?
    && s.stage.Serving?
  }

  /** A feed for which a buffer is allocated */
  lemma FillOne(s: State, block: seq<int>) returns (path: seq<State>)
    requires Filled(s) && s.pool.elements < s.pool.maxElements
    ensures IsPath(path) && path[0] == s && Filled(path[|path| - 1])
    ensures path[|path| - 1].pool.elements == s.pool.elements + 1
    ensures path[|path| - 1].pool.maxElements == s.pool.maxElements
  {
    var (b, pool) := Allocated(s.pool);
    var s1, s2 := s.(producer := Looking(block)), s.(producer := Missed(block));
    var s3 := s.(producer := Holding(block, b), pool := pool);
    var s4 := s.(producer := Away, pool := Unlocked(pool, 0, b.(data := block)), fed := s.fed + [Feed(block, true)]);
    path := [s, s1, s2, s3, s4];
  }

  lemma PathsJoin(a: seq<State>, b: seq<State>)
    requires IsPath(a) && IsPath(b) && a[|a| - 1] == b[0]
    ensures IsPath(a + b[1..]) && (a + b[1..])[0] == a[0] && (a + b[1..])[|a + b[1..]| - 1] == b[|b| - 1]
  {
    var c := a + b[1..];
    forall i | 0 <= i < |c| - 1 ensures |c[i].pool.queues| == 2 && Next(c[i], c[i + 1]) {
      if i >= |a| - 1 {
        assert c[i] == b[i - (|a| - 1)] && c[i + 1] == b[i - (|a| - 1) + 1];
      }
    }
  }

  lemma {:induction false} FillAll(s: State, block: seq<int>) returns (path: seq<State>)
    requires Filled(s) && s.pool.elements <= s.pool.maxElements
    ensures IsPath(path) && path[0] == s && Filled(path[|path| - 1])
    ensures path[|path| - 1].pool.elements == path[|path| - 1].pool.maxElements
    decreases s.pool.maxElements - s.pool.elements
  {
    if s.pool.elements == s.pool.maxElements {
      path := [s];
    } else {
      var first := FillOne(s, block);
      var rest := FillAll(first[|first| - 1], block);
      PathsJoin(first, rest);
      path := first + rest[1..];
    }
  }

  /** The header is queued and the client accepted. */
  lemma Opened(header: seq<int>, max: nat) returns (run: seq<State>)
    requires max > 0
    ensures IsPath(run) && Init(run[0], header) && run[0].pool.maxElements == max && Filled(run[|run| - 1])
    ensures run[|run| - 1].pool.elements == 1 && run[|run| - 1].pool.maxElements == max
  {
    var p := Pool([[], []], 0, max);
    var (b, pool) := Allocated(p);
    var s0 := State(p, Looking(header), Idle, Opening, [], [], false);
    var s1, s2 := s0.(producer := Missed(header)), s0.(producer := Holding(header, b), pool := pool);
    var s3 := s0.(producer := Away, pool := Unlocked(pool, 0, b.(data := header)), fed := [Feed(header, true)]);
    var s4 := s3.(stage := Serving);
    assert s0.fed + [Feed(header, true)] == s3.fed;
    run := [s0, s1, s2, s3, s4];
  }

  /** For every size of the pool, header and block there is a run in which the feed
      of the block ends without the block being accepted. */
  lemma FeedCanBeDropped(header: seq<int>, max: nat, block: seq<int>) returns (run: seq<State>, fed: seq<Feed>)
    requires max > 0
    ensures IsRun(run, header) && run[0].pool.maxElements == max
    ensures run[|run| - 1].fed == fed + [Feed(block, false)] && Accepted(run[|run| - 1].fed) == Accepted(fed)
  {
    var opening := Opened(header, max);
    var filling := FillAll(opening[|opening| - 1], block);
    PathsJoin(opening, filling);
    run := opening + filling[1..];
    var full := run[|run| - 1];
    var looking := full.(producer := Looking(block));
    assert Next(full, looking);
    var drop := DropPath(looking, block);
    PathsJoin([full, looking], drop);
    PathsJoin(run, [full, looking] + drop[1..]);
    run := run + ([full, looking] + drop[1..])[1..];
    fed := full.fed;
  }

  // ----- what is accepted can be sent, until a stop -----

  /** How much serveClient() has left to do */
  function ServerRank(s: State): nat
    requires |s.pool.queues| == 2
  {
    4 * |s.pool.queues[1]|
    + match s.consumer
      case Idle => 0
      case Returning(_) => 1
      case Sending(b, index) => if index == |b.data| then 2 else 3
  }

  ghost predicate Serves(s: State) { Inv(s) && s.stage.Serving? && !s.cut }

  /** serveClient() goes on, and send() takes all there is. */
  lemma ServerGoesOn(s: State) returns (s': State)
    requires Serves(s) && ServerRank(s) > 0
    ensures ConsumerStep(s, s') && s'.stage.Serving? && !s'.cut && s'.fed == s.fed
    ensures |s'.pool.queues| == 2 && ServerRank(s') < ServerRank(s)
  {
    match s.consumer {
      case Idle =>
        s' := s.(consumer := Sending(Popped(s.pool, 1).0.value, 0), pool := Popped(s.pool, 1).1);
      case Returning(b) => s' := s.(consumer := Idle, pool := Unlocked(s.pool, 1, b));
      case Sending(b, index) =>
        if index == |b.data| {
          s' := s.(consumer := Returning(b));
        } else {
          var k := |b.data| - index;
          s' := s.(sent := s.sent + b.data[index..index + k], consumer := Sending(b, index + k));
          assert SendsPiece(s, s', k);
        }
    }
  }

  /** The path leads from s to a state in which all blocks of fed are sent. */
  ghost predicate Delivers(path: seq<State>, s: State, fed: seq<Feed>) {
    IsPath(path) && path[0] == s && path[|path| - 1].sent == Accepted(fed)
  }

  lemma NothingLeft(s: State)
    requires Serves(s) && ServerRank(s) == 0
    ensures Delivers([s], s, s.fed)
  {
    assert s.sent + [] + [] == s.sent;
  }

  lemma DeliversLater(s: State, s': State, path: seq<State>, fed: seq<Feed>)
    requires |s.pool.queues| == 2 && Next(s, s') && Delivers(path, s', fed)
    ensures Delivers([s] + path, s, fed)
  {
    var path' := [s] + path;
    forall i | 0 <= i < |path'| - 1 ensures |path'[i].pool.queues| == 2 && Next(path'[i], path'[i + 1]) {
      assert i == 0 || (path'[i] == path[i - 1] && path'[i + 1] == path[i]);
    }
  }

  lemma ServesOn(s: State) returns (s': State)
    requires Serves(s) && ServerRank(s) > 0
    ensures Serves(s') && |s.pool.queues| == 2 && Next(s, s') && s'.fed == s.fed && ServerRank(s') < ServerRank(s)
  {
    s' := ServerGoesOn(s);
    NextInv(s, s');
  }

  lemma {:induction false} ServerFinishes(s: State, fed: seq<Feed>) returns (path: seq<State>)
    requires Serves(s) && s.fed == fed
    ensures Delivers(path, s, fed)
    decreases ServerRank(s)
  {
    if ServerRank(s) == 0 {
      NothingLeft(s);
      path := [s];
    } else {
      var s' := ServesOn(s);
      var rest := ServerFinishes(s', fed);
      DeliversLater(s, s', rest, fed);
      path := [s] + rest;
    }
  }

  /** While the server serves and has cut nothing short, it can go on so that all that
      was accepted is sent. */
  lemma AcceptedCanBeSent(run: seq<State>, header: seq<int>) returns (path: seq<State>)
    requires IsRun(run, header) && run[|run| - 1].stage.Serving? && !run[|run| - 1].cut
    ensures Delivers(path, run[|run| - 1], run[|run| - 1].fed)
  {
    RunInv(run, header, |run| - 1);
    path := ServerFinishes(run[|run| - 1], run[|run| - 1].fed);
  }

  /** No more than this can still be sent once a stop is requested. */
  function InHand(s: State): seq<int> { s.sent + Unsent(s.consumer) }

  lemma StoppedPiece(s: State, s': State, k: nat)
    requires InOrder(s) && s.consumer.Sending? && SendsPiece(s, s', k)
    ensures InHand(s') == InHand(s)
  {
    var d, i := s.consumer.buffer.data, s.consumer.index;
    assert d[i..] == d[i..i + k] + d[i + k..];
    assert s.sent + (d[i..i + k] + d[i + k..]) == (s.sent + d[i..i + k]) + d[i + k..];
  }

  lemma StoppedConsumer(s: State, s': State)
    requires InOrder(s) && s.stage.Stopped? && ConsumerStep(s, s')
    ensures s'.stage.Stopped? && InHand(s') <= InHand(s)
  {
    if s.consumer.Sending? && s.consumer.index != |s.consumer.buffer.data| {
      if k: nat :| SendsPiece(s, s', k) {
        StoppedPiece(s, s', k);
      }
    }
  }

  lemma StoppedStep(s: State, s': State)
    requires InOrder(s) && s.stage.Stopped? && Next(s, s')
    ensures s'.stage.Stopped? && InHand(s') <= InHand(s)
  {
    if ConsumerStep(s, s') {
      StoppedConsumer(s, s');
    }
  }

  lemma {:induction false} StoppedPath(path: seq<State>, j: nat)
    requires IsPath(path) && Inv(path[0]) && path[0].stage.Stopped? && j < |path|
    ensures Inv(path[j]) && path[j].stage.Stopped? && InHand(path[j]) <= InHand(path[0])
  {
    if j > 0 {
      StoppedPath(path, j - 1);
      NextInv(path[j - 1], path[j]);
      StoppedStep(path[j - 1], path[j]);
    }
  }

  lemma OneStepBehind(run: seq<State>, header: seq<int>, s': State)
    requires IsRun(run, header) && |run[|run| - 1].pool.queues| == 2 && Next(run[|run| - 1], s')
    ensures IsRun(run + [s'], header)
  {
    var run' := run + [s'];
    forall i | 0 <= i < |run'| - 1 ensures |run'[i].pool.queues| == 2 && Next(run'[i], run'[i + 1]) {
      assert run'[i] == run[i] && (i + 1 < |run| ==> run'[i + 1] == run[i + 1]);
    }
  }

  lemma SendsNoMore(path: seq<State>)
    requires IsPath(path) && Inv(path[0]) && path[0].stage.Stopped?
    ensures path[|path| - 1].sent <= InHand(path[0])
  {
    StoppedPath(path, |path| - 1);
  }

  /** A stop can be requested at any time, and from then on no block is sent but the
      rest of the one in hand. */
  lemma StopRequested(run: seq<State>, header: seq<int>, s': State)
    requires IsRun(run, header) && s' == run[|run| - 1].(stage := Stopped)
    ensures IsRun(run + [s'], header)
    ensures forall path: seq<State> | IsPath(path) && path[0] == s' ::
              path[|path| - 1].sent <= InHand(run[|run| - 1])
  {
    RunInv(run, header, |run| - 1);
    assert StageStep(run[|run| - 1], s');
    OneStepBehind(run, header, s');
    RunInv(run + [s'], header, |run|);
    forall path: seq<State> | IsPath(path) && path[0] == s'
      ensures path[|path| - 1].sent <= InHand(run[|run| - 1])
    {
      SendsNoMore(path);
    }
  }

  /** While a part of a buffer is unsent the client can fail to take it, and from then
      on nothing more is sent. */
  lemma SendCanFail(run: seq<State>, header: seq<int>, s': State)
    requires IsRun(run, header)
    requires var s := run[|run| - 1];
             && s.consumer.Sending? && s.consumer.index < |s.consumer.buffer.data|
             && s' == s.(stage := Stopped, consumer := Returning(s.consumer.buffer), cut := true)
    ensures IsRun(run + [s'], header)
    ensures forall path: seq<State> | IsPath(path) && path[0] == s' ::
              path[|path| - 1].sent <= run[|run| - 1].sent
  {
    RunInv(run, header, |run| - 1);
    assert ConsumerStep(run[|run| - 1], s');
    OneStepBehind(run, header, s');
    RunInv(run + [s'], header, |run|);
    assert s'.sent + [] == s'.sent;
    forall path: seq<State> | IsPath(path) && path[0] == s'
      ensures path[|path| - 1].sent <= run[|run| - 1].sent
    {
      SendsNoMore(path);
    }
  }
}
