/**
 Request identifiers and the matching of replies (src/proto/request.rs), and a connection to a peer that
 answers every request once, in any order (doc/protocols/websocket.rst).
 */
module Requests {
  import opened Wrappers
  import opened Seqs

  /** The number of 64-bit identifiers; the counter wraps around. */
  const IDS: nat := 0x1_0000_0000_0000_0000

  /** A request, with its type; `token` tells apart requests that look alike. */
  datatype Request = Request(token: nat, kind: nat)

  function Succ(id: nat): nat { (id + 1) % IDS }

  // ---- The search for a free identifier ----

  /** The first free identifier from `id` on, giving up when all of them have been tried. */
  function Search(requests: map<nat, Request>, id: nat, tried: nat): nat
    decreases IDS - tried
  {
    if id !in requests || tried >= IDS then id else Search(requests, Succ(id), tried + 1)
  }

  function NextId(requests: map<nat, Request>, lastId: nat): nat { Search(requests, Succ(lastId), 0) }

  /** The identifier `n` steps after another one. */
  function Nth(first: nat, n: nat): (id: nat)
    requires first < IDS && n < IDS
    ensures id < IDS
  {
    if first + n < IDS then first + n else first + n - IDS
  }

  /** The identifiers tried before the search stands at `id`. */
  ghost predicate Tried(requests: map<nat, Request>, first: nat, id: nat, tried: set<nat>) {
    && first < IDS && |tried| < IDS && id == Nth(first, |tried|) && tried <= requests.Keys
    && forall x :: x in tried ==> exists n: nat :: n < |tried| && x == Nth(first, n)
  }

  lemma TriedNext(requests: map<nat, Request>, first: nat, id: nat, tried: set<nat>)
    requires |requests| < IDS && Tried(requests, first, id, tried) && id in requests
    ensures id !in tried && |tried| < |requests.Keys|
    ensures Tried(requests, first, Succ(id), tried + {id})
  {
    assert id !in tried;
    var more := tried + {id};
    SubsetIsNoLarger(more, requests.Keys);
    forall x | x in more ensures exists n: nat :: n < |more| && x == Nth(first, n) {
      if x == id {
        assert x == Nth(first, |tried|);
      } else {
        var n: nat :| n < |tried| && x == Nth(first, n);
        assert n < |more|;
      }
    }
  }

  lemma {:induction false} SearchFinds(requests: map<nat, Request>, first: nat, id: nat, tried: set<nat>)
    requires |requests| < IDS && Tried(requests, first, id, tried) && |tried| <= |requests|
    ensures Search(requests, id, |tried|) !in requests
    decreases IDS - |tried|
  {
    if id in requests {
      TriedNext(requests, first, id, tried);
      SearchFinds(requests, first, Succ(id), tried + {id});
    }
  }

  /** With fewer requests outstanding than there are identifiers, the one chosen is free. */
  lemma NextIdIsFree(requests: map<nat, Request>, lastId: nat)
    requires |requests| < IDS
    ensures NextId(requests, lastId) !in requests
  {
    assert Succ(lastId) == Nth(Succ(lastId), 0);
    SearchFinds(requests, Succ(lastId), Succ(lastId), {});
  }

  lemma {:induction false} SearchIsFirst(requests: map<nat, Request>, first: nat, id: nat, tried: nat)
    returns (n: nat)
    requires first < IDS && tried < IDS && id == Nth(first, tried)
    requires forall k: nat :: k < tried ==> Nth(first, k) in requests
    ensures Search(requests, id, tried) == Nth(first, n % IDS)
    ensures n <= IDS && forall k: nat :: k < n && k < IDS ==> Nth(first, k) in requests
    ensures Search(requests, id, tried) !in requests ==> n < IDS
    decreases IDS - tried
  {
    if id !in requests {
      n := tried;
    } else if tried + 1 < IDS {
      assert Succ(id) == Nth(first, tried + 1);
      n := SearchIsFirst(requests, first, Succ(id), tried + 1);
    } else {
      n := IDS;
      assert Succ(id) == Nth(first, 0);
      assert Nth(first, 0) in requests;
    }
  }

  /** The `k`-th identifier after one, in 64-bit arithmetic. */
  function Onwards(lastId: nat, k: nat): nat { (lastId + 1 + k) % IDS }

  /** It is the next free one: all those between it and the last one used are taken. */
  lemma NextIdIsNext(requests: map<nat, Request>, lastId: nat) returns (n: nat)
    requires |requests| < IDS
    ensures NextId(requests, lastId) == Onwards(lastId, n) && n < IDS
    ensures forall k: nat :: k < n ==> Onwards(lastId, k) in requests
  {
    var first := Succ(lastId);
    n := SearchIsFirst(requests, first, first, 0);
    NextIdIsFree(requests, lastId);
    forall k: nat | k < IDS ensures Nth(first, k) == Onwards(lastId, k) {
      WrapsAround(lastId + 1, k);
    }
  }

  lemma WrapsAround(a: nat, k: nat)
    requires k < IDS
    ensures Nth(a % IDS, k) == (a + k) % IDS
  {
    assert a == a / IDS * IDS + a % IDS;
  }

  // ---- The registry ----

  datatype Delivery = Delivered(request: Request) | WrongType | Unsolicited

  /** What a reply of some type, or an error (no type), leads to. */
  function Deliver(requests: map<nat, Request>, id: nat, kind: Option<nat>): Delivery {
    if id !in requests then Unsolicited
    else if kind.Some? && kind.value != requests[id].kind then WrongType
    else Delivered(requests[id])
  }

  class Registry {
    var requests: map<nat, Request>
    var lastRequestId: nat

    constructor ()
      ensures requests == map[] && lastRequestId == 0
    {
      requests, lastRequestId := map[], 0;
    }

    /** A request leaves through `PacketStream::poll`. */
    method Register(request: Request) returns (id: nat)
      requires |requests| < IDS
      modifies this
      ensures id == NextId(old(requests), old(lastRequestId)) && id !in old(requests)
      ensures requests == old(requests)[id := request] && lastRequestId == id
    {
      lastRequestId := Succ(lastRequestId);
      ghost var first, tried: set<nat> := lastRequestId, {};
      assert first == Nth(first, 0);
      while lastRequestId in requests
        invariant requests == old(requests)
        invariant Tried(requests, first, lastRequestId, tried) && |tried| <= |requests.Keys|
        invariant Search(requests, lastRequestId, |tried|) == NextId(requests, old(lastRequestId))
        decreases |requests| - |tried|
      {
        TriedNext(requests, first, lastRequestId, tried);
        tried := tried + {lastRequestId};
        lastRequestId := Succ(lastRequestId);
      }
      id := lastRequestId;
      requests := requests[id := request];
    }

    /** `respond` and `respond_error` */
    method Respond(id: nat, kind: Option<nat>) returns (delivery: Delivery)
      modifies `requests
      ensures delivery == Deliver(old(requests), id, kind)
      ensures requests == old(requests) - {id}
    {
      if id !in requests {
        assert requests - {id} == requests;
        return Unsolicited;
      }
      var request := requests[id];
      requests := requests - {id};
      if kind.Some? && kind.value != request.kind {
        return WrongType;
      }
      return Delivered(request);
    }
  }

  // ---- A connection ----

  /** What is under way: a request, or the answer to one; `answer` is `None` for an error. */
  datatype Message =
    | Asked(id: nat, request: Request)
    | Answered(id: nat, request: Request, answer: Option<nat>)

  /** `resolved` pairs the request that was woken up with the one the peer answered. */
  datatype Conn = Conn(
    requests: map<nat, Request>,
    lastId: nat,
    wire: seq<Message>,
    sent: nat,
    resolved: seq<(Request, Request)>,
    mistakes: nat
  )

  datatype Event =
    | Send(kind: nat)
    | Answer(k: nat, isError: bool)
    | Receive(k: nat)

  predicate Enabled(c: Conn, e: Event) {
    match e
    case Send(_) => |c.requests| < IDS
    case Answer(k, _) => k < |c.wire| && c.wire[k].Asked?
    case Receive(k) => k < |c.wire| && c.wire[k].Answered?
  }

  function Next(c: Conn, e: Event): Conn
    requires Enabled(c, e)
  {
    match e
    case Send(kind) =>
      var request, id := Request(c.sent, kind), NextId(c.requests, c.lastId);
      c.(requests := c.requests[id := request], lastId := id, wire := c.wire + [Asked(id, request)], sent := c.sent + 1)
    case Answer(k, isError) =>
      var m := c.wire[k];
      c.(wire := c.wire[k := Answered(m.id, m.request, if isError then None else Some(m.request.kind))])
    case Receive(k) =>
      var m := c.wire[k];
      var rest := c.(wire := c.wire[..k] + c.wire[k + 1..], requests := c.requests - {m.id});
      match Deliver(c.requests, m.id, m.answer)
      case Delivered(request) => rest.(resolved := c.resolved + [(request, m.request)])
      case _ => rest.(mistakes := c.mistakes + 1)
  }

  predicate IsRun(c: Conn, events: seq<Event>)
    decreases |events|
  {
    events == [] || (Enabled(c, events[0]) && IsRun(Next(c, events[0]), events[1..]))
  }

  function Run(c: Conn, events: seq<Event>): Conn
    requires IsRun(c, events)
    decreases |events|
  {
    if events == [] then c else Run(Next(c, events[0]), events[1..])
  }

  const Fresh: Conn := Conn(map[], 0, [], 0, [], 0)

  predicate UnderWay(wire: seq<Message>, id: nat) { exists i :: 0 <= i < |wire| && wire[i].id == id }

  predicate Genuine(requests: map<nat, Request>, m: Message) {
    && m.id in requests && requests[m.id] == m.request
    && (m.Answered? && m.answer.Some? ==> m.answer.value == m.request.kind)
  }

  /** Every message under way stands for the registered request of its identifier, and each of those for one. */
  predicate Matched(requests: map<nat, Request>, wire: seq<Message>) {
    && (forall i, j :: 0 <= i < j < |wire| ==> wire[i].id != wire[j].id)
    && (forall i :: 0 <= i < |wire| ==> Genuine(requests, wire[i]))
    && (forall id :: id in requests ==> UnderWay(wire, id))
  }

  predicate Outstanding(requests: map<nat, Request>, token: nat) {
    exists id :: id in requests && requests[id].token == token
  }

  predicate Resolved<T>(resolved: seq<(Request, T)>, token: nat) {
    exists i :: 0 <= i < |resolved| && resolved[i].0.token == token
  }

  /** No request was registered twice or resolved twice. */
  predicate Unrepeated<T>(requests: map<nat, Request>, resolved: seq<(Request, T)>) {
    && (forall a, b :: a in requests && b in requests && a != b ==> requests[a].token != requests[b].token)
    && (forall i, j :: 0 <= i < j < |resolved| ==> resolved[i].0.token != resolved[j].0.token)
    && (forall i :: 0 <= i < |resolved| ==> !Outstanding(requests, resolved[i].0.token))
  }

  /** The requests that were sent are those outstanding and those resolved. */
  ghost predicate Accounted<T>(requests: map<nat, Request>, resolved: seq<(Request, T)>, sent: nat) {
    forall t: nat :: t < sent <==> Outstanding(requests, t) || Resolved(resolved, t)
  }

  ghost predicate Inv(c: Conn) {
    && Matched(c.requests, c.wire) && Unrepeated(c.requests, c.resolved) && Accounted(c.requests, c.resolved, c.sent)
    && c.mistakes == 0 && forall i :: 0 <= i < |c.resolved| ==> c.resolved[i].0 == c.resolved[i].1
  }

  lemma MatchedSend(requests: map<nat, Request>, wire: seq<Message>, id: nat, request: Request)
    requires Matched(requests, wire) && id !in requests
    ensures Matched(requests[id := request], wire + [Asked(id, request)])
  {
    var after := wire + [Asked(id, request)];
    forall i | 0 <= i < |after| ensures Genuine(requests[id := request], after[i]) {
      if i < |wire| {
        assert Genuine(requests, wire[i]);
      }
    }
    forall i | 0 <= i < |wire| ensures wire[i].id != id {
      assert Genuine(requests, wire[i]);
    }
    forall x | x in requests[id := request] ensures UnderWay(after, x) {
      if x == id {
        assert after[|wire|].id == x;
      } else {
        assert UnderWay(wire, x);
        var i :| 0 <= i < |wire| && wire[i].id == x;
        assert after[i].id == x;
      }
    }
  }

  lemma MatchedAnswer(requests: map<nat, Request>, wire: seq<Message>, k: nat, m: Message)
    requires Matched(requests, wire) && k < |wire| && m.id == wire[k].id && Genuine(requests, m)
    ensures Matched(requests, wire[k := m])
  {
    var after := wire[k := m];
    forall x | x in requests ensures UnderWay(after, x) {
      assert UnderWay(wire, x);
      var i :| 0 <= i < |wire| && wire[i].id == x;
      assert after[i].id == x;
    }
  }

  /** Where the messages that stay are found. */
  lemma StayUnderWay(wire: seq<Message>, k: nat, x: nat)
    requires k < |wire| && UnderWay(wire, x) && wire[k].id != x
    ensures UnderWay(wire[..k] + wire[k + 1..], x)
  {
    var after := wire[..k] + wire[k + 1..];
    var i :| 0 <= i < |wire| && wire[i].id == x;
    assert after[if i < k then i else i - 1].id == x;
  }

  lemma MatchedReceive(requests: map<nat, Request>, wire: seq<Message>, k: nat)
    requires Matched(requests, wire) && k < |wire|
    ensures Matched(requests - {wire[k].id}, wire[..k] + wire[k + 1..])
  {
    var id, after := wire[k].id, wire[..k] + wire[k + 1..];
    forall i | 0 <= i < |after| ensures Genuine(requests - {id}, after[i]) {
      assert Genuine(requests, wire[if i < k then i else i + 1]);
    }
    forall x | x in requests - {id} ensures UnderWay(after, x) {
      StayUnderWay(wire, k, x);
    }
  }

  lemma OutstandingSend(requests: map<nat, Request>, id: nat, request: Request, t: nat)
    requires id !in requests
    ensures Outstanding(requests[id := request], t) <==> Outstanding(requests, t) || t == request.token
  {
    var after := requests[id := request];
    assert after[id] == request;
    if Outstanding(requests, t) {
      var x :| x in requests && requests[x].token == t;
      assert after[x].token == t;
    }
  }

  lemma OutstandingReceive<T>(requests: map<nat, Request>, resolved: seq<(Request, T)>, id: nat, t: nat)
    requires id in requests && Unrepeated(requests, resolved)
    ensures Outstanding(requests - {id}, t) <==> Outstanding(requests, t) && t != requests[id].token
  {
    if Outstanding(requests, t) && t != requests[id].token {
      var x :| x in requests && requests[x].token == t;
      assert (requests - {id})[x].token == t;
    }
  }

  lemma ResolvedReceive<T>(resolved: seq<(Request, T)>, r: (Request, T), t: nat)
    ensures Resolved(resolved + [r], t) <==> Resolved(resolved, t) || t == r.0.token
  {
    var after := resolved + [r];
    assert after[|resolved|] == r;
    if Resolved(resolved, t) {
      var i :| 0 <= i < |resolved| && resolved[i].0.token == t;
      assert after[i].0.token == t;
    }
  }

  lemma TokensSend<T>(requests: map<nat, Request>, resolved: seq<(Request, T)>, sent: nat, id: nat, request: Request)
    requires Unrepeated(requests, resolved) && Accounted(requests, resolved, sent)
    requires id !in requests && request.token == sent
    ensures Unrepeated(requests[id := request], resolved) && Accounted(requests[id := request], resolved, sent + 1)
  {
    forall t: nat
      ensures Outstanding(requests[id := request], t) <==> Outstanding(requests, t) || t == sent
    {
      OutstandingSend(requests, id, request, t);
    }
    forall x | x in requests ensures requests[x].token != sent {
      assert Outstanding(requests, requests[x].token);
    }
    forall i | 0 <= i < |resolved| ensures resolved[i].0.token != sent {
      assert Resolved(resolved, resolved[i].0.token);
    }
    forall t: nat
      ensures t < sent + 1 <==> Outstanding(requests[id := request], t) || Resolved(resolved, t)
    {
      assert t < sent <==> Outstanding(requests, t) || Resolved(resolved, t);
    }
  }

  lemma TokensReceive<T>(requests: map<nat, Request>, resolved: seq<(Request, T)>, sent: nat, id: nat, other: T)
    requires Unrepeated(requests, resolved) && Accounted(requests, resolved, sent) && id in requests
    ensures Unrepeated(requests - {id}, resolved + [(requests[id], other)])
    ensures Accounted(requests - {id}, resolved + [(requests[id], other)], sent)
  {
    forall t: nat
      ensures Outstanding(requests - {id}, t) <==> Outstanding(requests, t) && t != requests[id].token
      ensures Resolved(resolved + [(requests[id], other)], t) <==> Resolved(resolved, t) || t == requests[id].token
    {
      OutstandingReceive(requests, resolved, id, t);
      ResolvedReceive(resolved, (requests[id], other), t);
    }
    assert Outstanding(requests, requests[id].token);
  }

  /** A reply wakes up exactly the request it answers. */
  lemma ReplyFindsItsRequest(c: Conn, k: nat)
    requires Matched(c.requests, c.wire) && Enabled(c, Receive(k))
    ensures Deliver(c.requests, c.wire[k].id, c.wire[k].answer) == Delivered(c.wire[k].request)
  {
    assert Genuine(c.requests, c.wire[k]);
  }

  lemma SendKeepsInv(c: Conn, kind: nat)
    requires Inv(c) && Enabled(c, Send(kind))
    ensures Inv(Next(c, Send(kind)))
  {
    var request, id := Request(c.sent, kind), NextId(c.requests, c.lastId);
    NextIdIsFree(c.requests, c.lastId);
    MatchedSend(c.requests, c.wire, id, request);
    TokensSend(c.requests, c.resolved, c.sent, id, request);
  }

  lemma AnswerKeepsInv(c: Conn, k: nat, isError: bool)
    requires Inv(c) && Enabled(c, Answer(k, isError))
    ensures Inv(Next(c, Answer(k, isError)))
  {
    assert Genuine(c.requests, c.wire[k]);
    MatchedAnswer(c.requests, c.wire, k, Next(c, Answer(k, isError)).wire[k]);
  }

  lemma ReceiveKeepsInv(c: Conn, k: nat)
    requires Inv(c) && Enabled(c, Receive(k))
    ensures Inv(Next(c, Receive(k)))
  {
    assert Genuine(c.requests, c.wire[k]);
    ReplyFindsItsRequest(c, k);
    MatchedReceive(c.requests, c.wire, k);
    TokensReceive(c.requests, c.resolved, c.sent, c.wire[k].id, c.wire[k].request);
  }

  lemma NextKeepsInv(c: Conn, e: Event)
    requires Inv(c) && Enabled(c, e)
    ensures Inv(Next(c, e))
  {
    match e
    case Send(kind) => SendKeepsInv(c, kind);
    case Answer(k, isError) => AnswerKeepsInv(c, k, isError);
    case Receive(k) => ReceiveKeepsInv(c, k);
  }

  lemma {:induction false} RunKeepsInv(c: Conn, events: seq<Event>)
    requires Inv(c) && IsRun(c, events)
    ensures Inv(Run(c, events))
    decreases |events|
  {
    if events != [] {
      NextKeepsInv(c, events[0]);
      RunKeepsInv(Next(c, events[0]), events[1..]);
    }
  }

  /**
   However requests are made and answered, no reply is unsolicited or of the wrong type, each wakes up
   the request it answers, no request is woken up twice, and once nothing is under way all have been.
   */
  lemma RepliesAreMatched(events: seq<Event>)
    requires IsRun(Fresh, events)
    ensures var c := Run(Fresh, events);
            && c.mistakes == 0
            && (forall i :: 0 <= i < |c.resolved| ==> c.resolved[i].0 == c.resolved[i].1)
            && (forall i, j :: 0 <= i < j < |c.resolved| ==> c.resolved[i].0.token != c.resolved[j].0.token)
            && (c.wire == [] ==> c.requests == map[] && forall t: nat :: t < c.sent ==> Resolved(c.resolved, t))
  {
    RunKeepsInv(Fresh, events);
    var c := Run(Fresh, events);
    if c.wire == [] {
      forall id ensures id !in c.requests {
        assert !UnderWay(c.wire, id);
      }
    }
  }

  // ---- Whatever is sent back ----

  /** A request of ours, or a reply that arrives, of some type or an error, under any identifier. */
  datatype Call = Ask(kind: nat) | Reply(id: nat, answer: Option<nat>)

  /** What became of a request: the reply that took it out of the registry, and whether it woke it up. */
  datatype Fate = Fate(id: nat, answer: Option<nat>, woken: bool)

  /** `sentAs` holds the identifier under which each request was sent, by token. */
  datatype Desk = Desk(
    requests: map<nat, Request>,
    lastId: nat,
    sentAs: seq<nat>,
    settled: seq<(Request, Fate)>,
    unsolicited: nat
  )

  const Idle: Desk := Desk(map[], 0, [], [], 0)

  predicate Possible(d: Desk, c: Call) { c.Ask? ==> |d.requests| < IDS }

  function Handle(d: Desk, c: Call): Desk
    requires Possible(d, c)
  {
    match c
    case Ask(kind) =>
      var id := NextId(d.requests, d.lastId);
      d.(requests := d.requests[id := Request(|d.sentAs|, kind)], lastId := id, sentAs := d.sentAs + [id])
    case Reply(id, answer) =>
      var rest := d.(requests := d.requests - {id});
      match Deliver(d.requests, id, answer)
      case Delivered(request) => rest.(settled := d.settled + [(request, Fate(id, answer, true))])
      case WrongType =>
        if id in d.requests then rest.(settled := d.settled + [(d.requests[id], Fate(id, answer, false))]) else rest
      case Unsolicited => rest.(unsolicited := d.unsolicited + 1)
  }

  predicate AllPossible(d: Desk, calls: seq<Call>)
    decreases |calls|
  {
    calls == [] || (Possible(d, calls[0]) && AllPossible(Handle(d, calls[0]), calls[1..]))
  }

  function HandleAll(d: Desk, calls: seq<Call>): Desk
    requires AllPossible(d, calls)
    decreases |calls|
  {
    if calls == [] then d else HandleAll(Handle(d, calls[0]), calls[1..])
  }

  function Arrived(calls: seq<Call>): nat {
    if calls == [] then 0 else (if calls[0].Reply? then 1 else 0) + Arrived(calls[1..])
  }

  /** A reply settles the request that was sent under its identifier, and wakes it up only if the type is right. */
  predicate FitFate(sentAs: seq<nat>, s: (Request, Fate)) {
    && s.0.token < |sentAs| && sentAs[s.0.token] == s.1.id
    && (s.1.woken <==> s.1.answer == None || s.1.answer == Some(s.0.kind))
  }

  ghost predicate Orderly(d: Desk) {
    && Unrepeated(d.requests, d.settled) && Accounted(d.requests, d.settled, |d.sentAs|)
    && (forall id :: id in d.requests ==>
          d.requests[id].token < |d.sentAs| && d.sentAs[d.requests[id].token] == id)
    && (forall i :: 0 <= i < |d.settled| ==> FitFate(d.sentAs, d.settled[i]))
  }

  lemma AskIsOrderly(d: Desk, kind: nat)
    requires Orderly(d) && Possible(d, Ask(kind))
    ensures Orderly(Handle(d, Ask(kind)))
  {
    var id := NextId(d.requests, d.lastId);
    NextIdIsFree(d.requests, d.lastId);
    TokensSend(d.requests, d.settled, |d.sentAs|, id, Request(|d.sentAs|, kind));
  }

  lemma ReplyIsOrderly(d: Desk, id: nat, answer: Option<nat>)
    requires Orderly(d)
    ensures var e := Handle(d, Reply(id, answer));
            Orderly(e) && |e.settled| + e.unsolicited == |d.settled| + d.unsolicited + 1
  {
    if id in d.requests {
      var woken := answer == None || answer == Some(d.requests[id].kind);
      TokensReceive(d.requests, d.settled, |d.sentAs|, id, Fate(id, answer, woken));
    } else {
      assert d.requests - {id} == d.requests;
    }
  }

  lemma {:induction false} HandledAreOrderly(d: Desk, calls: seq<Call>)
    requires Orderly(d) && AllPossible(d, calls)
    ensures var e := HandleAll(d, calls);
            Orderly(e) && |e.settled| + e.unsolicited == |d.settled| + d.unsolicited + Arrived(calls)
    decreases |calls|
  {
    if calls != [] {
      match calls[0] {
        case Ask(kind) => AskIsOrderly(d, kind);
        case Reply(id, answer) => ReplyIsOrderly(d, id, answer);
      }
      HandledAreOrderly(Handle(d, calls[0]), calls[1..]);
    }
  }

  /**
   Whatever replies arrive, each request is settled at most once, by a reply under its own identifier, and is woken
   up exactly when that is an error or of its own type; a request is lost neither before nor after, and every reply
   that settles none counts as unsolicited.
   */
  lemma RepliesSettleRequests(calls: seq<Call>)
    requires AllPossible(Idle, calls)
    ensures var d := HandleAll(Idle, calls);
            && (forall i :: 0 <= i < |d.settled| ==> FitFate(d.sentAs, d.settled[i]))
            && (forall i, j :: 0 <= i < j < |d.settled| ==> d.settled[i].0.token != d.settled[j].0.token)
            && (forall t: nat :: t < |d.sentAs| <==> Outstanding(d.requests, t) || Resolved(d.settled, t))
            && (forall t: nat :: !(Outstanding(d.requests, t) && Resolved(d.settled, t)))
            && |d.settled| + d.unsolicited == Arrived(calls)
  {
    HandledAreOrderly(Idle, calls);
  }
}
