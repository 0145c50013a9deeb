/** The memory controller's request queues (src/Controller.h): acceptance, forwarding, completion, write drain. The
    scheduler's choice and what its command turns out to be are parameters of a tick. */
module QueueModel {
  import Service
  import opened ServiceTree

  datatype Kind = Read | Write | Other

  /** `id` numbers requests in the order of acceptance; `first` is `is_first_command`. */
  datatype Req = Req(id: nat, kind: Kind, addr: int, vec: seq<int>, arrive: int, depart: int, first: bool)

  /** A callback and when it was made. */
  datatype Reply = Reply(req: Req, clk: int)

  /** `tree` is the channel with its ranks and banks as built, `bank` the level of the banks. */
  datatype Config = Config(max: nat, latency: int, high: int, low: int, tree: Node, bank: nat)

  datatype State = State(clk: int, readq: seq<Req>, writeq: seq<Req>, otherq: seq<Req>, pending: seq<Req>,
                         writeMode: bool, accepted: nat, replies: seq<Reply>, closed: seq<Req>, served: seq<Served>)

  datatype Answer = Answer(state: State, ok: bool)

  predicate Queued(q: seq<Req>, addr: int) {
    exists i :: 0 <= i < |q| && q[i].addr == addr
  }

  /** `enqueue`. */
  function Enqueue(c: Config, s: State, kind: Kind, addr: int, vec: seq<int>): Answer {
    var req := Req(s.accepted, kind, addr, vec, s.clk, 0, true);
    var t := s.(accepted := s.accepted + 1);
    match kind
    case Write => if |s.writeq| == c.max then Answer(s, false) else Answer(t.(writeq := s.writeq + [req]), true)
    case Other => if |s.otherq| == c.max then Answer(s, false) else Answer(t.(otherq := s.otherq + [req]), true)
    case Read =>
      if |s.readq| == c.max then Answer(s, false)
      else if Queued(s.writeq, addr) then Answer(t.(pending := s.pending + [req.(depart := s.clk + 1)]), true)
      else Answer(t.(readq := s.readq + [req]), true)
  }

  function Serving(s: State, req: Req, delta: int): State {
    s.(served := s.served + [Served(req.vec, Service.Event(req.id, s.clk, delta))])
  }

  /** Step 1 of a tick: the oldest pending read is answered once its time has come. */
  function Reap(s: State): State {
    if |s.pending| == 0 || s.pending[0].depart > s.clk then s
    else
      var req := s.pending[0];
      var t := if req.depart - req.arrive > 1 then Serving(s, req, -1) else s;
      t.(replies := t.replies + [Reply(req, s.clk)], pending := s.pending[1..])
  }

  /** Step 3: whether to drain writes. */
  function Drain(c: Config, s: State): State {
    s.(writeMode := if !s.writeMode then |s.writeq| >= c.high || |s.readq| == 0
                    else !(|s.writeq| <= c.low && |s.readq| != 0))
  }

  /** The queue that step 4 looks at. */
  function Chosen(s: State): Kind {
    if |s.otherq| > 0 then Other else if s.writeMode then Write else Read
  }

  function Queue(s: State, kind: Kind): seq<Req> {
    match kind
    case Read => s.readq
    case Write => s.writeq
    case Other => s.otherq
  }

  function WithQueue(s: State, kind: Kind, q: seq<Req>): State {
    match kind
    case Read => s.(readq := q)
    case Write => s.(writeq := q)
    case Other => s.(otherq := q)
  }

  /** The scheduler found no ready request, or request i, whose command is its last one or not. */
  datatype Choice = Nothing | Issue(i: nat, last: bool)

  predicate ChoiceOk(s: State, choice: Choice) {
    choice.Issue? ==> choice.i < |Queue(s, Chosen(s))|
  }

  /** Step 4: issue one command, and finish its request if it was the last. */
  function Work(c: Config, s: State, choice: Choice): State
    requires ChoiceOk(s, choice)
  {
    if choice.Nothing? then s
    else
      var kind := Chosen(s);
      var q := Queue(s, kind);
      var req := q[choice.i];
      var s1 := if req.first && !kind.Other? then Serving(s, req, 1) else s;
      if !choice.last then WithQueue(s1, kind, q[choice.i := req.(first := false)])
      else
        var rest := WithQueue(s1, kind, q[..choice.i] + q[choice.i + 1..]);
        match kind
        case Read => rest.(pending := rest.pending + [req.(first := false, depart := s.clk + c.latency)])
        case Write => Serving(rest, req, -1).(closed := rest.closed + [req.(first := false)])
        case Other => rest.(closed := rest.closed + [req.(first := false)])
  }

  /** Step 2: the refresh scheduler's requests. */
  function Refresh(c: Config, s: State, vecs: seq<seq<int>>): State {
    if |vecs| == 0 then s else Enqueue(c, Refresh(c, s, vecs[..|vecs| - 1]), Other, 0, vecs[|vecs| - 1]).state
  }

  /** The first three steps. */
  function Prepare(c: Config, s: State, vecs: seq<seq<int>>): State {
    Drain(c, Refresh(c, Reap(s.(clk := s.clk + 1)), vecs))
  }

  /** A tick whose refresh requests are all accepted, as the source asserts. */
  ghost predicate TickOk(c: Config, s: State, vecs: seq<seq<int>>, choice: Choice) {
    |s.otherq| + |vecs| <= c.max && ChoiceOk(Prepare(c, s, vecs), choice)
  }

  function Tick(c: Config, s: State, vecs: seq<seq<int>>, choice: Choice): State
    requires ChoiceOk(Prepare(c, s, vecs), choice)
  {
    Work(c, Prepare(c, s, vecs), choice)
  }

  function Initial(): State {
    State(0, [], [], [], [], false, 0, [], [], [])
  }
}
