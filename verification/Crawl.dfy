/** The bounded breadth-first peer crawl of internal/p2p/crawl.go. NormalizeRelayURL and
    FetchPeers are parameters, fixed for the duration of a crawl. */
module Crawl {
  import opened Words

  const MAX_CRAWL_PEERS: nat := 64
  const MAX_CRAWL_DEPTH: nat := 3

  datatype Response = Response(self: string, peers: seq<string>)

  datatype Net = Net(normalize: string -> Option<string>, fetch: string -> Option<Response>)

  datatype Item = Item(url: string, depth: nat)

  datatype Error = NoSeeds | NoPeers

  // ---- the ball around the seeds ----

  /** The relays a list of raw URLs names. */
  function Relays(net: Net, raws: seq<string>): set<string> {
    set i | 0 <= i < |raws| && net.normalize(raws[i]).Some? :: net.normalize(raws[i]).value
  }

  /** Everything a peer list mentions, the peer itself first. */
  function Mentioned(r: Response): seq<string> {
    (if r.self != "" then [r.self] else []) + r.peers
  }

  function Neighbours(net: Net, url: string): set<string> {
    match net.fetch(url)
    case None => {}
    case Some(r) => Relays(net, Mentioned(r))
  }

  /** The neighbours of a relay that answers: itself under the name it gives, if any, and the
      peers it lists, as far as their names are valid; one that does not answer has none. */
  lemma NeighboursAreListed(net: Net, url: string, v: string)
    ensures v in Neighbours(net, url) <==>
            && net.fetch(url).Some?
            && var r := net.fetch(url).value;
               || (r.self != "" && net.normalize(r.self) == Some(v))
               || exists i | 0 <= i < |r.peers| :: net.normalize(r.peers[i]) == Some(v)
  {
    if net.fetch(url).Some? {
      var r := net.fetch(url).value;
      var m := Mentioned(r);
      var k := |m| - |r.peers|;
      assert forall i | 0 <= i < |r.peers| :: m[k + i] == r.peers[i];
      if r.self != "" && net.normalize(r.self) == Some(v) {
        assert m[0] == r.self;
      }
      if i :| 0 <= i < |r.peers| && net.normalize(r.peers[i]) == Some(v) {
        assert m[k + i] == r.peers[i];
      }
    }
  }

  /** The relays at distance at most d from the roots. */
  function Ball(net: Net, roots: set<string>, d: nat): set<string> {
    if d == 0 then roots
    else
      var inner := Ball(net, roots, d - 1);
      inner + set u, v | u in inner && v in Neighbours(net, u) :: v
  }

  predicate IsPath(net: Net, roots: set<string>, path: seq<string>) {
    && path != [] && path[0] in roots
    && forall i | 0 <= i < |path| - 1 :: path[i + 1] in Neighbours(net, path[i])
  }

  /** Distance means length of a path: the ball is what paths of at most d links reach. */
  lemma {:induction false} PathsStayInBall(net: Net, roots: set<string>, path: seq<string>, d: nat)
    requires IsPath(net, roots, path) && |path| <= d + 1
    ensures path[|path| - 1] in Ball(net, roots, d)
    decreases d
  {
    if |path| == 1 {
      BallGrows(net, roots, 0, d);
    } else {
      var n := |path| - 1;
      PathsStayInBall(net, roots, path[..n], d - 1);
      assert path[n - 1 + 1] in Neighbours(net, path[n - 1]);
    }
  }

  lemma {:induction false} BallHasPaths(net: Net, roots: set<string>, url: string, d: nat) returns (path: seq<string>)
    requires url in Ball(net, roots, d)
    ensures IsPath(net, roots, path) && |path| <= d + 1 && path[|path| - 1] == url
    decreases d
  {
    if d == 0 {
      path := [url];
    } else if url in Ball(net, roots, d - 1) {
      path := BallHasPaths(net, roots, url, d - 1);
    } else {
      var u :| u in Ball(net, roots, d - 1) && url in Neighbours(net, u);
      var p := BallHasPaths(net, roots, u, d - 1);
      path := p + [url];
    }
  }

  lemma {:induction false} BallGrows(net: Net, roots: set<string>, d: nat, e: nat)
    requires d <= e
    ensures Ball(net, roots, d) <= Ball(net, roots, e)
    decreases e - d
  {
    if d < e {
      BallGrows(net, roots, d + 1, e);
    }
  }

  // ---- the queue ----

  predicate Covers(queue: seq<Item>, url: string, d: nat) {
    exists j :: 0 <= j < |queue| && queue[j].url == url && queue[j].depth <= d
  }

  function Urls(queue: seq<Item>): set<string> {
    set j | 0 <= j < |queue| :: queue[j].url
  }

  predicate Ordered(queue: seq<Item>) {
    forall i, j | 0 <= i <= j < |queue| :: queue[i].depth <= queue[j].depth
  }

  predicate Near(net: Net, roots: set<string>, it: Item) {
    it.depth <= MAX_CRAWL_DEPTH && it.url in Ball(net, roots, it.depth)
  }

  /** seen is the set of queued URLs, each queued once, in order of depth, and no deeper
      than its distance allows; a relay turned away by the cap is recorded in lost. */
  ghost predicate Consistent(net: Net, roots: set<string>, queue: seq<Item>, seen: set<string>, lost: Option<string>) {
    && seen == Urls(queue)
    && |seen| == |queue| <= MAX_CRAWL_PEERS
    && Ordered(queue)
    && (forall j | 0 <= j < |queue| :: Near(net, roots, queue[j]))
    && (lost.Some? ==> lost.value in Ball(net, roots, MAX_CRAWL_DEPTH) && lost.value !in seen && |seen| == MAX_CRAWL_PEERS)
  }

  predicate NoDeeper(queue: seq<Item>, depth: nat) {
    forall j | 0 <= j < |queue| :: queue[j].depth <= depth
  }

  lemma AppendKeepsConsistent(net: Net, roots: set<string>, queue: seq<Item>, seen: set<string>, lost: Option<string>,
                              url: string, depth: nat)
    requires Consistent(net, roots, queue, seen, lost) && NoDeeper(queue, depth)
    requires depth <= MAX_CRAWL_DEPTH && url in Ball(net, roots, depth)
    requires url !in seen && |seen| < MAX_CRAWL_PEERS
    ensures Consistent(net, roots, queue + [Item(url, depth)], seen + {url}, lost)
    ensures NoDeeper(queue + [Item(url, depth)], depth)
    ensures Covers(queue + [Item(url, depth)], url, depth)
  {
    UrlsAppend(queue, Item(url, depth));
    DepthsAppend(queue, Item(url, depth));
    hide Ball, Urls, Ordered, NoDeeper;
    assert (queue + [Item(url, depth)])[|queue|] == Item(url, depth);
  }

  lemma UrlsAppend(queue: seq<Item>, it: Item)
    ensures Urls(queue + [it]) == Urls(queue) + {it.url}
  {
    var queue' := queue + [it];
    assert queue'[|queue|] == it;
    forall u ensures u in Urls(queue') <==> u in Urls(queue) + {it.url} {
      if u in Urls(queue) {
        var j :| 0 <= j < |queue| && queue[j].url == u;
        assert queue'[j].url == u;
      }
    }
  }

  lemma DepthsAppend(queue: seq<Item>, it: Item)
    requires Ordered(queue) && NoDeeper(queue, it.depth)
    ensures Ordered(queue + [it]) && NoDeeper(queue + [it], it.depth)
  {
  }

  lemma TurnedAway(net: Net, roots: set<string>, queue: seq<Item>, seen: set<string>, lost: Option<string>,
                   url: string, depth: nat)
    requires Consistent(net, roots, queue, seen, lost)
    requires depth <= MAX_CRAWL_DEPTH && url in Ball(net, roots, depth)
    requires url !in seen && |seen| >= MAX_CRAWL_PEERS
    ensures Consistent(net, roots, queue, seen, Some(url))
  {
    BallGrows(net, roots, depth, MAX_CRAWL_DEPTH);
    hide Ball;
  }

  lemma SeenIsCovered(net: Net, roots: set<string>, queue: seq<Item>, seen: set<string>, lost: Option<string>,
                      url: string, depth: nat)
    requires Consistent(net, roots, queue, seen, lost) && NoDeeper(queue, depth) && url in seen
    ensures Covers(queue, url, depth)
  {
    hide Ball;
  }

  /** The add closure. */
  method Add(net: Net, ghost roots: set<string>, queue: seq<Item>, seen: set<string>, ghost lost: Option<string>,
             raw: string, depth: nat)
    returns (queue': seq<Item>, seen': set<string>, ghost lost': Option<string>)
    requires Consistent(net, roots, queue, seen, lost)
    requires depth <= MAX_CRAWL_DEPTH && NoDeeper(queue, depth)
    requires net.normalize(raw).Some? ==> net.normalize(raw).value in Ball(net, roots, depth)
    ensures Consistent(net, roots, queue', seen', lost')
    ensures queue <= queue' && NoDeeper(queue', depth)
    ensures lost.Some? ==> lost'.Some?
    ensures lost'.None? && net.normalize(raw).Some? ==> Covers(queue', net.normalize(raw).value, depth)
  {
    hide Consistent, NoDeeper, Covers, Ball;
    queue', seen', lost' := queue, seen, lost;
    var nu := net.normalize(raw);
    if nu.None? {
      return;
    }
    if nu.value in seen {
      SeenIsCovered(net, roots, queue, seen, lost, nu.value, depth);
      return;
    }
    if |seen| >= MAX_CRAWL_PEERS {
      TurnedAway(net, roots, queue, seen, lost, nu.value, depth);
      lost' := Some(nu.value);
      return;
    }
    AppendKeepsConsistent(net, roots, queue, seen, lost, nu.value, depth);
    seen' := seen + {nu.value};
    queue' := queue + [Item(nu.value, depth)];
  }

  /** Adding a list of raw URLs one after another. */
  method AddAll(net: Net, ghost roots: set<string>, queue: seq<Item>, seen: set<string>, ghost lost: Option<string>,
                raws: seq<string>, depth: nat)
    returns (queue': seq<Item>, seen': set<string>, ghost lost': Option<string>)
    requires Consistent(net, roots, queue, seen, lost)
    requires depth <= MAX_CRAWL_DEPTH && NoDeeper(queue, depth)
    requires Relays(net, raws) <= Ball(net, roots, depth)
    ensures Consistent(net, roots, queue', seen', lost')
    ensures queue <= queue' && NoDeeper(queue', depth)
    ensures lost.Some? ==> lost'.Some?
    ensures lost'.None? ==> forall u | u in Relays(net, raws) :: Covers(queue', u, depth)
  {
    hide Consistent, NoDeeper, Covers, Ball;
    queue', seen', lost' := queue, seen, lost;
    var k := 0;
    while k < |raws|
      invariant 0 <= k <= |raws|
      invariant Consistent(net, roots, queue', seen', lost')
      invariant queue <= queue' && NoDeeper(queue', depth)
      invariant lost.Some? ==> lost'.Some?
      invariant lost'.None? ==> forall i | 0 <= i < k && net.normalize(raws[i]).Some? ::
                                  Covers(queue', net.normalize(raws[i]).value, depth)
    {
      ghost var before := queue';
      assert net.normalize(raws[k]).Some? ==> net.normalize(raws[k]).value in Relays(net, raws);
      queue', seen', lost' := Add(net, roots, queue', seen', lost', raws[k], depth);
      CoversGrows(before, queue', depth);
      k := k + 1;
    }
  }

  lemma CoversGrows(q: seq<Item>, q': seq<Item>, d: nat)
    requires q <= q'
    ensures forall u | Covers(q, u, d) :: Covers(q', u, d)
  {
    forall u | Covers(q, u, d) ensures Covers(q', u, d) {
      var j :| 0 <= j < |q| && q[j].url == u && q[j].depth <= d;
      assert q'[j].url == u;
    }
  }

  // ---- the crawl ----

  function Roots(net: Net, sticky: string, seeds: seq<string>): set<string> {
    Relays(net, (if sticky != "" then [sticky] else []) + seeds)
  }

  /** The crawl starts from the preferred relay, if one is named, and the seeds. */
  lemma RootsAreGiven(net: Net, sticky: string, seeds: seq<string>, v: string)
    ensures v in Roots(net, sticky, seeds) <==>
            || (sticky != "" && net.normalize(sticky) == Some(v))
            || exists i | 0 <= i < |seeds| :: net.normalize(seeds[i]) == Some(v)
  {
    var m := (if sticky != "" then [sticky] else []) + seeds;
    var k := |m| - |seeds|;
    assert forall i | 0 <= i < |seeds| :: m[k + i] == seeds[i];
    if sticky != "" && net.normalize(sticky) == Some(v) {
      assert m[0] == sticky;
    }
    if i :| 0 <= i < |seeds| && net.normalize(seeds[i]) == Some(v) {
      assert m[k + i] == seeds[i];
    }
  }

  /** The neighbours of every item before qi are covered one level deeper. */
  predicate Explored(net: Net, queue: seq<Item>, qi: nat)
    requires qi <= |queue|
  {
    forall i, u | 0 <= i < qi && queue[i].depth < MAX_CRAWL_DEPTH && u in Neighbours(net, queue[i].url) ::
      Covers(queue, u, queue[i].depth + 1)
  }

  lemma ExploredGrows(net: Net, q: seq<Item>, q': seq<Item>, qi: nat)
    requires q <= q' && qi <= |q| && Explored(net, q, qi)
    ensures Explored(net, q', qi)
  {
    forall i, u | 0 <= i < qi && q'[i].depth < MAX_CRAWL_DEPTH && u in Neighbours(net, q'[i].url)
      ensures Covers(q', u, q'[i].depth + 1)
    {
      assert q'[i] == q[i];
      CoversGrows(q, q', q[i].depth + 1);
    }
  }

  /** A fully explored queue covers the whole ball, each relay at its distance or nearer. */
  lemma {:induction false} ExploredCoversBall(net: Net, roots: set<string>, queue: seq<Item>, d: nat)
    requires d <= MAX_CRAWL_DEPTH && Explored(net, queue, |queue|)
    requires RootsCovered(queue, roots)
    ensures forall u | u in Ball(net, roots, d) :: Covers(queue, u, d)
  {
    if d > 0 {
      ExploredCoversBall(net, roots, queue, d - 1);
      forall u | u in Ball(net, roots, d) ensures Covers(queue, u, d) {
        if u in Ball(net, roots, d - 1) {
          var j :| 0 <= j < |queue| && queue[j].url == u && queue[j].depth <= d - 1;
        } else {
          var w :| w in Ball(net, roots, d - 1) && u in Neighbours(net, w);
          var i :| 0 <= i < |queue| && queue[i].url == w && queue[i].depth <= d - 1;
          assert Covers(queue, u, queue[i].depth + 1);
          var j :| 0 <= j < |queue| && queue[j].url == u && queue[j].depth <= queue[i].depth + 1;
        }
      }
    }
  }

  function Min(a: nat, b: nat): nat {
    if a < b then a else b
  }

  lemma SubsetSize(a: set<string>, b: set<string>)
    requires a <= b
    ensures |a| <= |b|
    ensures |a| == |b| ==> a == b
  {
    assert b == a + (b - a);
    assert |b| == |a| + |b - a|;
  }

  /** What the finished loop has found. */
  lemma CrawlResult(net: Net, roots: set<string>, queue: seq<Item>, seen: set<string>, lost: Option<string>)
    requires Consistent(net, roots, queue, seen, lost)
    requires lost.None? ==> Explored(net, queue, |queue|) && RootsCovered(queue, roots)
    ensures seen <= Ball(net, roots, MAX_CRAWL_DEPTH)
    ensures |seen| == Min(MAX_CRAWL_PEERS, |Ball(net, roots, MAX_CRAWL_DEPTH)|)
  {
    var ball := Ball(net, roots, MAX_CRAWL_DEPTH);
    forall u | u in seen ensures u in ball {
      var j :| 0 <= j < |queue| && queue[j].url == u;
      BallGrows(net, roots, queue[j].depth, MAX_CRAWL_DEPTH);
    }
    if lost.Some? {
      SubsetSize(seen + {lost.value}, ball);
    } else {
      ExploredCoversBall(net, roots, queue, MAX_CRAWL_DEPTH);
      assert ball == seen;
    }
  }

  predicate RootsCovered(queue: seq<Item>, roots: set<string>) {
    forall u | u in roots :: Covers(queue, u, 0)
  }

  lemma RootsStayCovered(q: seq<Item>, q': seq<Item>, roots: set<string>)
    requires q <= q' && RootsCovered(q, roots)
    ensures RootsCovered(q', roots)
  {
    CoversGrows(q, q', 0);
  }

  /** Following the peers of one more queued relay. */
  method Visit(net: Net, ghost roots: set<string>, queue: seq<Item>, seen: set<string>, ghost lost: Option<string>, qi: nat)
    returns (queue': seq<Item>, seen': set<string>, ghost lost': Option<string>)
    requires Consistent(net, roots, queue, seen, lost) && qi < |queue| && NoDeeper(queue, queue[qi].depth + 1)
    requires lost.None? ==> Explored(net, queue, qi) && RootsCovered(queue, roots)
    ensures Consistent(net, roots, queue', seen', lost')
    ensures queue <= queue' && NoDeeper(queue', queue[qi].depth + 1)
    ensures lost'.None? ==> Explored(net, queue', qi + 1) && RootsCovered(queue', roots)
  {
    queue', seen', lost' := queue, seen, lost;
    var it := queue[qi];
    assert Near(net, roots, it);
    ghost var links := Neighbours(net, it.url);
    if it.depth < MAX_CRAWL_DEPTH {
      var resp := net.fetch(it.url);
      if resp.Some? {
        BallStep(net, roots, it.url, it.depth);
        hide Consistent, NoDeeper, Ball, Covers, Explored, RootsCovered;
        queue', seen', lost' := AddAll(net, roots, queue, seen, lost, Mentioned(resp.value), it.depth + 1);
        if lost'.None? {
          RootsStayCovered(queue, queue', roots);
          ExploredGrows(net, queue, queue', qi);
          assert forall u | u in links :: Covers(queue', u, it.depth + 1);
          ExploredOneMore(net, queue', qi);
        }
        return;
      }
    }
    hide Consistent, NoDeeper, Covers, RootsCovered;
    if lost'.None? {
      ExploredOneMore(net, queue', qi);
    }
  }

  lemma ExploredOneMore(net: Net, queue: seq<Item>, qi: nat)
    requires qi < |queue| && Explored(net, queue, qi)
    requires queue[qi].depth < MAX_CRAWL_DEPTH ==>
               forall u | u in Neighbours(net, queue[qi].url) :: Covers(queue, u, queue[qi].depth + 1)
    ensures Explored(net, queue, qi + 1)
  {
    hide Covers, Neighbours;
  }

  lemma DepthsAdvance(queue: seq<Item>, qi: nat)
    requires Ordered(queue) && qi + 1 < |queue| && NoDeeper(queue, queue[qi].depth + 1)
    ensures NoDeeper(queue, queue[qi + 1].depth + 1)
  {
  }

  lemma SeedsAreRoots(net: Net, queue: seq<Item>, raws: seq<string>)
    requires forall u | u in Relays(net, raws) :: Covers(queue, u, 0)
    ensures RootsCovered(queue, Relays(net, raws)) && Explored(net, queue, 0)
  {
  }

  lemma SeedsAreShallow(queue: seq<Item>)
    requires NoDeeper(queue, 0)
    ensures |queue| > 0 ==> NoDeeper(queue, queue[0].depth + 1)
  {
  }

  /** Crawl. rawSticky is the caller's preference, sticky the same without surrounding
      space; seeds is None when SeedURLs failed. The result is always part of the ball and
      always as much of it as the cap admits. */
  method Crawl(net: Net, rawSticky: string, sticky: string, seeds: Option<seq<string>>)
    returns (r: Result<set<string>, Error>)
    requires rawSticky == "" ==> sticky == ""
    ensures r == Err(NoSeeds) <==> seeds.None? && rawSticky == ""
    ensures var roots := Roots(net, sticky, if seeds.Some? then seeds.value else []);
            var ball := Ball(net, roots, 3);
            && (r.Ok? ==> r.value <= ball && |r.value| == Min(64, |ball|))
            && (r == Err(NoPeers) ==> ball == {})
            && (ball == {} ==> r.Err?)
  {
    if seeds.None? && rawSticky == "" {
      NoRoots(net);
      return Err(NoSeeds);
    }
    var seedList := if seeds.Some? then seeds.value else [];
    var first := if sticky != "" then [sticky] else [];
    ghost var roots := Roots(net, sticky, seedList);
    assert Ball(net, roots, 0) == roots == Relays(net, first + seedList);
    assert Consistent(net, roots, [], {}, None) && NoDeeper([], 0);
    hide Consistent, NoDeeper, Covers, Ball, Relays, Explored, RootsCovered;
    var queue: seq<Item>, seen: set<string> := [], {};
    ghost var lost: Option<string> := None;
    queue, seen, lost := AddAll(net, roots, queue, seen, lost, first + seedList, 0);
    if lost.None? {
      SeedsAreRoots(net, queue, first + seedList);
    }
    SeedsAreShallow(queue);
    var qi := 0;
    while qi < |queue|
      invariant 0 <= qi <= |queue|
      invariant Consistent(net, roots, queue, seen, lost)
      invariant qi < |queue| ==> NoDeeper(queue, queue[qi].depth + 1)
      invariant lost.None? ==> Explored(net, queue, qi) && RootsCovered(queue, roots)
      decreases MAX_CRAWL_PEERS - qi
    {
      QueueFacts(net, roots, queue, seen, lost);
      ghost var before := queue;
      queue, seen, lost := Visit(net, roots, queue, seen, lost, qi);
      assert queue[qi] == before[qi];
      QueueFacts(net, roots, queue, seen, lost);
      if qi + 1 < |queue| {
        DepthsAdvance(queue, qi);
      }
      qi := qi + 1;
    }
    CrawlResult(net, roots, queue, seen, lost);
    if |seen| == 0 {
      return Err(NoPeers);
    }
    return Ok(seen);
  }

  lemma QueueFacts(net: Net, roots: set<string>, queue: seq<Item>, seen: set<string>, lost: Option<string>)
    requires Consistent(net, roots, queue, seen, lost)
    ensures |queue| <= MAX_CRAWL_PEERS && Ordered(queue)
  {
  }

  lemma NoRoots(net: Net)
    ensures Ball(net, Roots(net, "", []), MAX_CRAWL_DEPTH) == {}
  {
    var roots := Roots(net, "", []);
    assert roots == {};
    assert Ball(net, roots, 1) == {} && Ball(net, roots, 2) == {};
  }

  lemma BallStep(net: Net, roots: set<string>, url: string, d: nat)
    requires url in Ball(net, roots, d)
    ensures Neighbours(net, url) <= Ball(net, roots, d + 1)
  {
  }

  /** So the result is the ball exactly when the ball has at most 64 relays. */
  lemma ExactWithinCap(found: set<string>, ball: set<string>)
    requires found <= ball && |found| == Min(MAX_CRAWL_PEERS, |ball|)
    ensures found == ball <==> |ball| <= MAX_CRAWL_PEERS
  {
    SubsetSize(found, ball);
  }
}
