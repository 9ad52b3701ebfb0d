/** Fixed-window limits on subscription downloads, per peer and for all of them together. */
module SubscriptionLimiter {
  import opened Wrappers

  type Peer = string
  type Time = int

  const MINUTE := 60_000_000_000
  const CAPACITY := 4096
  const PEER_LIMIT := 60
  const GLOBAL_LIMIT := 600

  /** `window` is when the current window began; none before the first request. */
  datatype Window = Window(begin: Option<Time>, count: nat)

  datatype Limits = Limits(rates: map<Peer, Window>, all: Window, pruned: Option<Time>)

  datatype Request = Request(peer: Peer, at: Time)

  const FRESH := Limits(map[], Window(None, 0), None)

  predicate Over(begin: Option<Time>, now: Time) {
    begin.None? || now - begin.value >= MINUTE
  }

  /** A window that is over starts again at this moment. */
  function Renewed(w: Window, now: Time): Window {
    if Over(w.begin, now) then Window(Some(now), 0) else w
  }

  function Pruned(l: Limits, now: Time): Limits {
    if !Over(l.pruned, now) then l
    else l.(rates := map p | p in l.rates && !Over(l.rates[p].begin, now) :: l.rates[p], pruned := Some(now))
  }

  function RateOf(l: Limits, peer: Peer): Window {
    if peer in l.rates then l.rates[peer] else Window(None, 0)
  }

  /** A decision after pruning. */
  function Decide(l: Limits, r: Request): (Limits, bool) {
    var all := Renewed(l.all, r.at);
    var e := Renewed(RateOf(l, r.peer), r.at);
    if all.count >= GLOBAL_LIMIT || (r.peer !in l.rates && |l.rates| >= CAPACITY) || e.count >= PEER_LIMIT then (l.(all := all), false)
    else (l.(rates := l.rates[r.peer := e.(count := e.count + 1)], all := all.(count := all.count + 1)), true)
  }

  function Allowed(l: Limits, r: Request): (Limits, bool) {
    Decide(Pruned(l, r.at), r)
  }

  class Limiter {
    var rates: map<Peer, Window>
    var all: Window
    var pruned: Option<Time>

    constructor ()
      ensures Current() == FRESH
    {
      rates, all, pruned := map[], Window(None, 0), None;
    }

    function Current(): Limits
      reads this
    {
      Limits(rates, all, pruned)
    }

    /** Forgets the peers whose windows are over, at most once a minute. */
    method Prune(now: Time)
      modifies this
      ensures Current() == Pruned(old(Current()), now)
    {
      if pruned.None? || now - pruned.value >= MINUTE {
        ghost var before := rates;
        var todo := rates.Keys;
        while todo != {}
          invariant all == old(all) && pruned == old(pruned) && todo <= before.Keys
          invariant rates == map p | p in before && (p in todo || !Over(before[p].begin, now)) :: before[p]
        {
          var p :| p in todo;
          if rates[p].begin.None? || now - rates[p].begin.value >= MINUTE {
            rates := rates - {p};
          }
          todo := todo - {p};
        }
        pruned := Some(now);
      }
    }

    /** Admits or refuses one request. */
    method Allow(peer: Peer, now: Time) returns (admitted: bool)
      modifies this
      ensures (Current(), admitted) == Allowed(old(Current()), Request(peer, now))
    {
      hide Pruned;
      Prune(now);
      if all.begin.None? || now - all.begin.value >= MINUTE {
        all := Window(Some(now), 0);
      }
      if all.count >= GLOBAL_LIMIT {
        return false;
      }
      var known := peer in rates;
      if !known && |rates| >= CAPACITY {
        return false;
      }
      var e := if known then rates[peer] else Window(None, 0);
      if e.begin.None? || now - e.begin.value >= MINUTE {
        e := Window(Some(now), 0);
      }
      if e.count >= PEER_LIMIT {
        return false;
      }
      e := e.(count := e.count + 1);
      rates := rates[peer := e];
      all := all.(count := all.count + 1);
      return true;
    }
  }

  // ------------------------------------------------------------------------------------------
  // Whole runs
  // ------------------------------------------------------------------------------------------

  function After(l: Limits, requests: seq<Request>): Limits
    decreases |requests|
  {
    if requests == [] then l else Allowed(After(l, requests[..|requests| - 1]), requests[|requests| - 1]).0
  }

  /** How many requests were admitted, of one peer or of all. */
  function Admitted(l: Limits, requests: seq<Request>, peer: Option<Peer>): nat
    decreases |requests|
  {
    if requests == [] then 0
    else
      var r := requests[|requests| - 1];
      Admitted(l, requests[..|requests| - 1], peer)
      + if Allowed(After(l, requests[..|requests| - 1]), r).1 && (peer.None? || peer.value == r.peer) then 1 else 0
  }

  predicate Bounded(l: Limits) {
    && |l.rates| <= CAPACITY && l.all.count <= GLOBAL_LIMIT
    && forall p :: p in l.rates ==> l.rates[p].count <= PEER_LIMIT
  }

  lemma {:induction false} FewerKeys(a: map<Peer, Window>, b: map<Peer, Window>)
    requires a.Keys <= b.Keys
    ensures |a| <= |b|
  {
    Subset(a.Keys, b.Keys);
  }

  lemma {:induction false} Subset(a: set<Peer>, b: set<Peer>)
    requires a <= b
    ensures |a| <= |b|
  {
    if a != {} {
      var x :| x in a;
      Subset(a - {x}, b - {x});
    }
  }

  lemma AllowedIsBounded(l: Limits, r: Request)
    requires Bounded(l)
    ensures Bounded(Allowed(l, r).0)
  {
    var p := Pruned(l, r.at);
    FewerKeys(p.rates, l.rates);
    var after := Allowed(l, r).0;
    assert after.rates.Keys == p.rates.Keys || after.rates.Keys == p.rates.Keys + {r.peer};
  }

  /** The table of peers never outgrows its capacity, and no window its limit. */
  lemma {:induction false} RunIsBounded(requests: seq<Request>)
    ensures Bounded(After(FRESH, requests))
    decreases |requests|
  {
    hide Allowed;
    if requests != [] {
      RunIsBounded(requests[..|requests| - 1]);
      AllowedIsBounded(After(FRESH, requests[..|requests| - 1]), requests[|requests| - 1]);
    }
  }

  /** The times do not run backwards. */
  predicate Ticking(requests: seq<Request>) {
    forall i, j :: 0 <= i < j < |requests| ==> requests[i].at <= requests[j].at
  }

  /** What a span that began at `from` may have admitted of a peer, seen from that peer's window. */
  predicate PeerBound(l: Limits, peer: Peer, from: Time, n: nat) {
    if peer !in l.rates then n <= PEER_LIMIT
    else
      var w := l.rates[peer];
      if w.begin.Some? && w.begin.value >= from then n <= PEER_LIMIT + w.count else n <= w.count <= PEER_LIMIT
  }

  predicate GlobalBound(l: Limits, from: Time, n: nat) {
    if l.all.begin.Some? && l.all.begin.value >= from then n <= GLOBAL_LIMIT + l.all.count else n <= l.all.count <= GLOBAL_LIMIT
  }

  lemma PeerStep(l: Limits, r: Request, peer: Peer, from: Time, n: nat)
    requires Bounded(l) && PeerBound(l, peer, from, n) && from <= r.at < from + MINUTE
    ensures PeerBound(Allowed(l, r).0, peer, from, n + if Allowed(l, r).1 && r.peer == peer then 1 else 0)
  {
  }

  lemma GlobalStep(l: Limits, r: Request, from: Time, n: nat)
    requires Bounded(l) && GlobalBound(l, from, n) && from <= r.at < from + MINUTE
    ensures GlobalBound(Allowed(l, r).0, from, n + if Allowed(l, r).1 then 1 else 0)
  {
  }

  lemma {:induction false} SpanBounds(l: Limits, span: seq<Request>, peer: Peer)
    requires Bounded(l) && Ticking(span) && (span != [] ==> span[|span| - 1].at < span[0].at + MINUTE)
    ensures Bounded(After(l, span))
    ensures span != [] ==> PeerBound(After(l, span), peer, span[0].at, Admitted(l, span, Some(peer)))
    ensures span != [] ==> GlobalBound(After(l, span), span[0].at, Admitted(l, span, None))
    decreases |span|
  {
    hide Allowed;
    hide Bounded;
    hide PeerBound;
    hide GlobalBound;
    if span != [] {
      var front, r := span[..|span| - 1], span[|span| - 1];
      SpanBounds(l, front, peer);
      AllowedIsBounded(After(l, front), r);
      StartOfSpan(l, peer, span[0].at);
      PeerStep(After(l, front), r, peer, span[0].at, Admitted(l, front, Some(peer)));
      GlobalStep(After(l, front), r, span[0].at, Admitted(l, front, None));
    }
  }

  lemma StartOfSpan(l: Limits, peer: Peer, from: Time)
    requires Bounded(l)
    ensures PeerBound(l, peer, from, 0) && GlobalBound(l, from, 0)
  {
  }

  /**
   Wherever in a run with a clock that does not go back, any span shorter than a minute admits at
   most 120 requests of a peer and 1200 in all.
   */
  lemma AnyMinuteIsLimited(before: seq<Request>, span: seq<Request>, peer: Peer)
    requires Ticking(span) && (span != [] ==> span[|span| - 1].at < span[0].at + MINUTE)
    ensures Admitted(After(FRESH, before), span, Some(peer)) <= 2 * PEER_LIMIT
    ensures Admitted(After(FRESH, before), span, None) <= 2 * GLOBAL_LIMIT
  {
    hide Allowed;
    RunIsBounded(before);
    SpanBounds(After(FRESH, before), span, peer);
  }

  // ------------------------------------------------------------------------------------------
  // Pruning is only about memory
  // ------------------------------------------------------------------------------------------

  /** The unpruned table has at most entries more whose windows are over. */
  predicate Like(l: Limits, u: Limits, now: Time) {
    && l.all == u.all && l.rates.Keys <= u.rates.Keys
    && (forall p :: p in l.rates ==> l.rates[p] == u.rates[p])
    && (forall p :: p in u.rates && p !in l.rates ==> Over(u.rates[p].begin, now))
  }

  /** Peers are forgotten when a minute has passed since that was last done, and then exactly those whose windows are over. */
  lemma ForgetsOnceAMinute(l: Limits, now: Time)
    ensures var l' := Pruned(l, now);
            var due := l.pruned.None? || now >= l.pruned.value + 60_000_000_000;
            && l'.all == l.all
            && (!due ==> l' == l)
            && (due ==>
                  && l'.pruned == Some(now)
                  && (forall p :: p in l'.rates <==> p in l.rates && l.rates[p].begin.Some? && now < l.rates[p].begin.value + 60_000_000_000)
                  && (forall p :: p in l'.rates ==> l'.rates[p] == l.rates[p]))
  {
  }

  predicate Fits(l: Limits, peer: Peer) {
    peer in l.rates || |l.rates| < CAPACITY
  }

  /** One request, decided with and without pruning. */
  lemma PrunedStep(l: Limits, u: Limits, last: Time, r: Request)
    requires Like(l, u, last) && last <= r.at && |u.rates| <= CAPACITY && Fits(u, r.peer)
    ensures Allowed(l, r).1 == Decide(u, r).1
    ensures Like(Allowed(l, r).0, Decide(u, r).0, r.at) && |Decide(u, r).0.rates| <= CAPACITY
  {
    var p := Pruned(l, r.at);
    assert Like(p, u, r.at);
    FewerFit(p, u, r.peer);
    assert Renewed(RateOf(p, r.peer), r.at) == Renewed(RateOf(u, r.peer), r.at);
  }

  /** A peer that has room in the unpruned table has room in the pruned one. */
  lemma FewerFit(p: Limits, u: Limits, peer: Peer)
    requires p.rates.Keys <= u.rates.Keys && |u.rates| <= CAPACITY && Fits(u, peer)
    ensures Fits(p, peer)
  {
    assert |p.rates| == |p.rates.Keys| && |u.rates| == |u.rates.Keys|;
    Subset(p.rates.Keys, u.rates.Keys);
    if peer in u.rates && peer !in p.rates {
      Subset(p.rates.Keys + {peer}, u.rates.Keys);
    }
  }

  /** The limits after a run in which nothing is ever pruned. */
  function Unpruned(requests: seq<Request>): Limits
    decreases |requests|
  {
    if requests == [] then FRESH else Decide(Unpruned(requests[..|requests| - 1]), requests[|requests| - 1]).0
  }

  /** The table that is never pruned turns nobody away for lack of room. */
  predicate RoomThroughout(requests: seq<Request>) {
    forall k :: 0 <= k < |requests| ==> Fits(Unpruned(requests[..k]), requests[k].peer)
  }

  lemma {:induction false} RunsAreLike(requests: seq<Request>)
    requires Ticking(requests) && RoomThroughout(requests)
    ensures |Unpruned(requests).rates| <= CAPACITY
    ensures forall now :: (requests == [] || requests[|requests| - 1].at <= now) ==> Like(After(FRESH, requests), Unpruned(requests), now)
    decreases |requests|
  {
    hide Allowed;
    hide Decide;
    hide Fits;
    if requests != [] {
      var front, r := requests[..|requests| - 1], requests[|requests| - 1];
      assert forall k :: 0 <= k < |front| ==> front[..k] == requests[..k];
      RunsAreLike(front);
      PrunedStep(After(FRESH, front), Unpruned(front), r.at, r);
    }
  }

  /**
   Over a whole run with a clock that does not go back: as long as the table that is never pruned has
   room for every peer, each request is decided as it would be without pruning.
   */
  lemma PruningIsInvisible(requests: seq<Request>, k: nat)
    requires Ticking(requests) && RoomThroughout(requests) && k < |requests|
    ensures Allowed(After(FRESH, requests[..k]), requests[k]).1 == Decide(Unpruned(requests[..k]), requests[k]).1
  {
    hide Allowed;
    hide Decide;
    hide Fits;
    assert forall j :: 0 <= j < k ==> requests[..k][..j] == requests[..j];
    RunsAreLike(requests[..k]);
    PrunedStep(After(FRESH, requests[..k]), Unpruned(requests[..k]), requests[k].at, requests[k]);
  }

  // ------------------------------------------------------------------------------------------
  // Who must be admitted
  // ------------------------------------------------------------------------------------------

  /** How many requests were admitted from a moment on, of one peer or of all. */
  function Since(requests: seq<Request>, peer: Option<Peer>, from: Time): nat
    decreases |requests|
  {
    if requests == [] then 0
    else
      var r := requests[|requests| - 1];
      Since(requests[..|requests| - 1], peer, from)
      + if r.at >= from && Allowed(After(FRESH, requests[..|requests| - 1]), r).1 && (peer.None? || peer.value == r.peer) then 1 else 0
  }

  lemma {:induction false} LaterIsFewer(requests: seq<Request>, peer: Option<Peer>, from: Time, later: Time)
    requires from <= later
    ensures Since(requests, peer, later) <= Since(requests, peer, from)
    decreases |requests|
  {
    hide Allowed;
    if requests != [] {
      LaterIsFewer(requests[..|requests| - 1], peer, from, later);
    }
  }

  /** A window counts nothing but requests admitted since it began. */
  predicate Counts(requests: seq<Request>, w: Window, peer: Option<Peer>) {
    match w.begin
    case None => w.count == 0
    case Some(begin) => w.count <= Since(requests, peer, begin) && requests != [] && begin <= requests[|requests| - 1].at
  }

  lemma CountsOn(front: seq<Request>, r: Request, w: Window, peer: Option<Peer>)
    requires Counts(front, w, peer) && (front != [] ==> front[|front| - 1].at <= r.at)
    ensures Counts(front + [r], w, peer)
    ensures var admitted := Allowed(After(FRESH, front), r).1 && (peer.None? || peer.value == r.peer);
            Counts(front + [r], Window(Renewed(w, r.at).begin, Renewed(w, r.at).count + if admitted then 1 else 0), peer)
  {
    hide Allowed;
    assert (front + [r])[..|front|] == front;
  }

  lemma {:induction false} WindowsCount(requests: seq<Request>, peer: Peer)
    requires Ticking(requests)
    ensures var l := After(FRESH, requests);
            Counts(requests, l.all, None) && Counts(requests, RateOf(l, peer), Some(peer))
    decreases |requests|
  {
    if requests != [] {
      var front, r := requests[..|requests| - 1], requests[|requests| - 1];
      WindowsCount(front, peer);
      assert requests == front + [r];
      var l := After(FRESH, front);
      CountsOn(front, r, l.all, None);
      CountsOn(front, r, RateOf(l, peer), Some(peer));
      CountsOn(front, r, Window(None, 0), Some(peer));
      WindowsMove(l, r, peer);
      hide Allowed;
      hide Counts;
    }
  }

  /** What one request does to the window of all and to that of a peer. */
  lemma WindowsMove(l: Limits, r: Request, peer: Peer)
    ensures var (l', admitted) := Allowed(l, r);
            && l'.all == Window(Renewed(l.all, r.at).begin, Renewed(l.all, r.at).count + if admitted then 1 else 0)
            && (!(admitted && peer == r.peer) ==> RateOf(l', peer) in {RateOf(l, peer), Window(None, 0)})
            && (admitted && peer == r.peer ==>
                  var known, none := Renewed(RateOf(l, peer), r.at), Renewed(Window(None, 0), r.at);
                  RateOf(l', peer) in {Window(known.begin, known.count + 1), Window(none.begin, none.count + 1)})
  {
    var p := Pruned(l, r.at);
    assert RateOf(p, peer) in {RateOf(l, peer), Window(None, 0)};
  }

  /**
   A request must be admitted if within the minute up to it fewer than 60 were admitted of its peer and
   fewer than 600 in all, and the table knows the peer or has room.
   */
  lemma MustAdmit(requests: seq<Request>, r: Request)
    requires Ticking(requests + [r])
    requires Since(requests, Some(r.peer), r.at - 60_000_000_000 + 1) < 60
    requires Since(requests, None, r.at - 60_000_000_000 + 1) < 600
    requires r.peer in After(FRESH, requests).rates || |After(FRESH, requests).rates| < 4096
    ensures Allowed(After(FRESH, requests), r).1
  {
    hide Allowed;
    hide Since;
    hide Counts;
    hide After;
    TickingFront(requests, r);
    hide Ticking;
    var l := After(FRESH, requests);
    WindowsCount(requests, r.peer);
    NotFull(requests, l.all, None, r.at);
    NotFull(requests, RateOf(l, r.peer), Some(r.peer), r.at);
    RunIsBounded(requests);
    StateAdmits(l, r);
    hide Renewed;
    hide Bounded;
    hide RateOf;
  }

  lemma TickingFront(requests: seq<Request>, r: Request)
    requires Ticking(requests + [r])
    ensures Ticking(requests)
  {
    assert forall i :: 0 <= i < |requests| ==> (requests + [r])[i] == requests[i];
  }

  lemma StateAdmits(l: Limits, r: Request)
    requires Bounded(l) && Fits(l, r.peer)
    requires Renewed(l.all, r.at).count < GLOBAL_LIMIT && Renewed(RateOf(l, r.peer), r.at).count < PEER_LIMIT
    ensures Allowed(l, r).1
  {
    PrunedFits(l, r);
    HasRoom(Pruned(l, r.at), r);
    hide Pruned;
    hide Decide;
    hide Bounded;
    hide Renewed;
    hide RateOf;
    hide Fits;
  }

  lemma HasRoom(l: Limits, r: Request)
    requires Renewed(l.all, r.at).count < GLOBAL_LIMIT && Renewed(RateOf(l, r.peer), r.at).count < PEER_LIMIT && Fits(l, r.peer)
    ensures Decide(l, r).1
  {
  }

  lemma NotFull(requests: seq<Request>, w: Window, peer: Option<Peer>, now: Time)
    requires Counts(requests, w, peer)
    ensures Renewed(w, now).count <= Since(requests, peer, now - MINUTE + 1)
  {
    if w.begin.Some? && now - w.begin.value < MINUTE {
      LaterIsFewer(requests, peer, now - MINUTE + 1, w.begin.value);
    }
  }

  /** Pruning makes room, and forgets of a peer only a window that is over. */
  lemma PrunedFits(l: Limits, r: Request)
    requires Bounded(l) && Fits(l, r.peer)
    ensures Fits(Pruned(l, r.at), r.peer)
    ensures Pruned(l, r.at).all == l.all
    ensures Renewed(RateOf(Pruned(l, r.at), r.peer), r.at) == Renewed(RateOf(l, r.peer), r.at)
  {
    FewerFit(Pruned(l, r.at), l, r.peer);
  }
}
