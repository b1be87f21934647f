/** The index of streams, servers and connections, and the round that asks all servers of a stream. */
module Monitor {
  import opened Basics
  import opened StatusMerge
  import opened ServerIndex

  /** The name of the kind of server that listens on an admin port. */
  const SERVER_NAMES := map[0 := "unknown", DUP_PORT := "streamdup", BOX_PORT := "masterbox",
                            RTMP_PORT := "rtmp streamer", HLS_PORT := "hls streamer"]

  function ServerFromPort(port: nat): (name: string)
    ensures name == "streamdup" <==> port == DUP_PORT
    ensures name == "masterbox" <==> port == BOX_PORT
    ensures name == "rtmp streamer" <==> port == RTMP_PORT
    ensures name == "hls streamer" <==> port == HLS_PORT
    ensures name == "unknown" <==> port !in {DUP_PORT, BOX_PORT, RTMP_PORT, HLS_PORT}
  {
    if port in SERVER_NAMES then SERVER_NAMES[port] else SERVER_NAMES[0]
  }

  /** A reply in a result tree; `put` is what the round adds to it. */
  datatype Entry = Entry(host: string, kind: string, result: string, put: Extra)

  datatype Extra = Nothing | Extra(protocol: string, port: nat, leaf: bool)

  /** What the connections reply: in which round, in which wing, to which request of the wing and on which
      connection. */
  type Replies = (nat, bool, nat, nat) -> string

  /** The replies in one wing of one round. */
  datatype Source = Source(replies: Replies, round: nat, primary: bool)

  /** What a server says when it is the one asked after `k` others. */
  ghost function Reply(from: Source, connections: map<Key, nat>, k: nat, s: Server): string {
    if KeyOf(s) in connections then from.replies(from.round, from.primary, k, connections[KeyOf(s)]) else ""
  }

  class StreamInfos {
    const streamId: nat
    var servers: seq<seq<seq<Server>>>  // by wing, primary first, and by kind
    var resultTree: seq<seq<Entry>>     // by wing
    var globalStatus: Status
    var modified: bool

    ghost predicate Shaped()
      reads this`servers
    {
      |servers| == 2 && |servers[0]| == 3 && |servers[1]| == 3
    }

    constructor (streamId: nat)
      ensures this.streamId == streamId && servers == [[[], [], []], [[], [], []]]
      ensures resultTree == [] && globalStatus == UNKNOWN && !modified
    {
      this.streamId := streamId;
      servers := [[[], [], []], [[], [], []]];
      resultTree, globalStatus, modified := [], UNKNOWN, false;
    }

    /** The lists hold what was collected from `primary` and `backup`. */
    ghost predicate Holds(primary: seq<Server>, backup: seq<Server>)
      reads this`servers
    {
      && Shaped()
      && forall j ::
           0 <= j < 3 ==> servers[0][j] == Collected(primary, j) && servers[1][j] == Collected(backup, j)
    }

    method FindSame(list: seq<Server>, s: Server) returns (found: bool)
      ensures found <==> HasSame(list, s)
    {
      var k := 0;
      while k < |list|
        invariant k <= |list| && forall i :: 0 <= i < k ==> !Same(list[i], s)
      {
        if Same(list[k], s) { return true; }
        k := k + 1;
      }
      return false;
    }

    method AddServer(server: Server, primary: bool, ghost p: seq<Server>, ghost b: seq<Server>)
      requires Holds(p, b)
      modifies this`servers
      ensures Holds(if primary then p + [server] else p, if primary then b else b + [server])
    {
      var i := if primary then 0 else 1;
      var j := ListOf(server.kind);
      assert (p + [server])[..|p|] == p && (b + [server])[..|b|] == b;
      if j == -1 { return; }
      var found := FindSame(servers[i][j], server);
      if !found {
        servers := servers[i := servers[i][j := servers[i][j] + [server]]];
      }
    }

    /** Adds the servers of a row one after the other. */
    method AddRow(r: Row, ghost p: seq<Server>, ghost b: seq<Server>)
      requires Holds(p, b)
      modifies this`servers
      ensures Holds(if r.primary then p + RowServers(r) else p, if r.primary then b else b + RowServers(r))
    {
      ghost var p', b' := AddTwo(DupOf(r), BoxOf(r), r.primary, p, b);
      if r.streamerHost.Some? {
        var host := r.streamerHost.value;
        p', b' := AddTwo(RtmpOf(host), HlsOf(host), r.primary, p', b');
      }
      assert p' == (if r.primary then p + RowServers(r) else p) && b' == (if r.primary then b else b + RowServers(r));
    }

    method AddTwo(s: Server, t: Server, primary: bool, ghost p: seq<Server>, ghost b: seq<Server>)
      returns (ghost p': seq<Server>, ghost b': seq<Server>)
      requires Holds(p, b)
      modifies this`servers
      ensures Holds(p', b')
      ensures p' == (if primary then p + [s, t] else p) && b' == (if primary then b else b + [s, t])
    {
      AddServer(s, primary, p, b);
      p', b' := if primary then p + [s] else p, if primary then b else b + [s];
      AddServer(t, primary, p', b');
      p', b' := if primary then p' + [t] else p', if primary then b' else b' + [t];
    }

    // ---------------------------------------------------------------- a round

    /** A round over the lists of a stream: in both wings every server is asked and its reply kept. */
    method Status(cfg: MonitorConfiguration, replies: Replies, round: nat) returns (committed: bool)
      requires Shaped() && KeysIn(cfg)
      modifies this`servers, this`resultTree, this`globalStatus, this`modified
      ensures Shaped() && |resultTree| == 2 && KeysIn(cfg)
      ensures forall i :: 0 <= i < 2 ==> Asked(old(servers)[i], servers[i], resultTree[i])
      ensures Replied(AllOf(old(servers)[0]), resultTree[0], Source(replies, round, true), cfg.connections)
      ensures Replied(AllOf(old(servers)[1]), resultTree[1], Source(replies, round, false), cfg.connections)
      ensures StreamersFirst(resultTree[0], globalStatus)
      ensures committed == modified == (resultTree != old(resultTree))
    {
      var resultTmp := resultTree;
      modified := false;
      var primary, primaryTree := AskWing(servers[0], cfg, Source(replies, round, true));
      var backup, backupTree := AskWing(servers[1], cfg, Source(replies, round, false));
      KeysKept(servers[0], primary, primaryTree, cfg.connections);
      KeysKept(servers[1], backup, backupTree, cfg.connections);
      servers := [primary, backup];
      resultTree := [primaryTree, backupTree];
      ParseTree();
      modified := resultTree != resultTmp;
      committed := modified;
    }

    /** The lists are those that the rows give, whatever the statuses are by now. */
    ghost predicate LoadedAs(rows: seq<Row>)
      reads this`servers
    {
      Shaped() && WingAs(servers[0], rows, streamId, true) && WingAs(servers[1], rows, streamId, false)
    }

    lemma LoadedLists(rows: seq<Row>)
      requires Holds(Named(rows, streamId, true), Named(rows, streamId, false))
      ensures LoadedAs(rows)
    {
    }

    /** Any round after the stream was loaded: in both wings the servers that the rows give are asked, in the order
        of their lists, and the replies kept under their names; the global status is the merge of what the
        streamers of the primary wing reply, or of what its masterboxes reply if that says nothing.  The next
        round finds the stream as this one did. */
    method Round(cfg: MonitorConfiguration, ghost rows: seq<Row>, replies: Replies, round: nat)
      requires LoadedAs(rows) && KeysIn(cfg)
      modifies this`servers, this`resultTree, this`globalStatus, this`modified
      ensures LoadedAs(rows) && KeysIn(cfg)
      ensures RoundDone(cfg, rows, replies, round)
      ensures Decided(rows, Source(replies, round, true), cfg.connections)
    {
      ghost var was, from := servers, Source(replies, round, true);
      var committed := Status(cfg, replies, round);
      AnswersSame(was[0], resultTree[0], rows, streamId, from, cfg.connections);
      AnswersSame(was[1], resultTree[1], rows, streamId, Source(replies, round, false), cfg.connections);
      RoundMeans(rows, streamId, was[0], resultTree[0], from, cfg.connections, globalStatus);
      AskedSame(was[0], servers[0], resultTree[0], rows, streamId, true);
      AskedSame(was[1], servers[1], resultTree[1], rows, streamId, false);
    }

    /** The trees hold what the servers of the rows replied in a round. */
    ghost predicate RoundDone(cfg: MonitorConfiguration, rows: seq<Row>, replies: Replies, round: nat)
      reads this`resultTree, cfg`connections
    {
      && |resultTree| == 2
      && RowsAnswer(rows, streamId, resultTree[0], Source(replies, round, true), cfg.connections)
      && RowsAnswer(rows, streamId, resultTree[1], Source(replies, round, false), cfg.connections)
    }

    /** The global status is what the streamers of the primary wing said in a round, merged in the order of their list,
        or what its masterboxes said if that is nothing. */
    ghost predicate Decided(rows: seq<Row>, from: Source, connections: map<Key, nat>)
      reads this`globalStatus
    {
      DecidedBy(ServerList(rows, streamId, true, 1), |ServerList(rows, streamId, true, 0)|,
                ServerList(rows, streamId, true, 2), from, connections, globalStatus)
    }

    /** What that means: `v` is what the streamers replied and `m` what the masterboxes replied, list by list. */
    lemma RoundDecides(rows: seq<Row>, from: Source, connections: map<Key, nat>, v: seq<Status>, m: seq<Status>)
      requires Decided(rows, from, connections)
      requires var dups, boxes := |ServerList(rows, streamId, true, 0)|, |ServerList(rows, streamId, true, 1)|;
               IsHeard(v, ServerList(rows, streamId, true, 2), dups + boxes, from, connections)
      requires IsHeard(m, ServerList(rows, streamId, true, 1), |ServerList(rows, streamId, true, 0)|, from, connections)
      ensures Global(v) != UNKNOWN ==> globalStatus == Global(v)
      ensures Global(v) == UNKNOWN ==> globalStatus == Global(m)
    {
      DecisionIs(ServerList(rows, streamId, true, 1), |ServerList(rows, streamId, true, 0)|,
                 ServerList(rows, streamId, true, 2), from, connections, globalStatus, v, m);
    }

    /** Any number of rounds, one after the other. */
    method Rounds(cfg: MonitorConfiguration, ghost rows: seq<Row>, replies: Replies, n: nat)
      requires LoadedAs(rows) && KeysIn(cfg)
      modifies this`servers, this`resultTree, this`globalStatus, this`modified
      ensures LoadedAs(rows) && KeysIn(cfg)
      ensures n > 0 ==> RoundDone(cfg, rows, replies, n - 1)
      ensures n > 0 ==> Decided(rows, Source(replies, n - 1, true), cfg.connections)
    {
      var k := 0;
      while k < n
        invariant k <= n && LoadedAs(rows) && KeysIn(cfg)
        invariant k > 0 ==> RoundDone(cfg, rows, replies, k - 1)
        invariant k > 0 ==> Decided(rows, Source(replies, k - 1, true), cfg.connections)
      {
        Round(cfg, rows, replies, k);
        k := k + 1;
      }
    }

    /** There is a connection for every server. */
    ghost predicate KeysIn(cfg: MonitorConfiguration)
      requires Shaped()
      reads this`servers, cfg`connections
    {
      ListsIn(servers[0], cfg.connections) && ListsIn(servers[1], cfg.connections)
    }

    /** The status of each wing, and from them the global one, which is that of the primary wing. */
    method ParseTree()
      requires |resultTree| == 2
      modifies this`globalStatus
      ensures StreamersFirst(resultTree[0], globalStatus)
    {
      var primary := WingStatus(resultTree[0]);
      var backup := WingStatus(resultTree[1]);
      globalStatus := primary;
    }
  }

  /** A round keeps the keys of a wing. */
  lemma KeysKept(was: seq<seq<Server>>, now: seq<seq<Server>>, tree: seq<Entry>, connections: map<Key, nat>)
    requires Asked(was, now, tree) && ListsIn(was, connections)
    ensures ListsIn(now, connections)
  {
    ListKeysKept(was[0], now[0], tree, 0, connections);
    ListKeysKept(was[1], now[1], tree, |was[0]|, connections);
    ListKeysKept(was[2], now[2], tree, |was[0]| + |was[1]|, connections);
  }

  lemma ListKeysKept(was: seq<Server>, now: seq<Server>, tree: seq<Entry>, first: nat, connections: map<Key, nat>)
    requires StatusesSaid(was, now, tree, first) && forall k :: 0 <= k < |was| ==> KeyOf(was[k]) in connections
    ensures forall k :: 0 <= k < |now| ==> KeyOf(now[k]) in connections
  {
    forall k | 0 <= k < |now| ensures KeyOf(now[k]) in connections {
      assert SaidAt(was, now, tree, first, k) && KeyOf(was[k]) in connections;
    }
  }

  ghost predicate ListsIn(lists: seq<seq<Server>>, connections: map<Key, nat>)
  {
    forall j, k :: 0 <= j < |lists| && 0 <= k < |lists[j]| ==> KeyOf(lists[j][k]) in connections
  }

  /** The servers of a wing, in the order in which they are asked. */
  ghost function AllOf(lists: seq<seq<Server>>): seq<Server>
    requires |lists| == 3
  {
    lists[0] + lists[1] + lists[2]
  }

  /** One reply for each server, in order, under its host and the name of its kind. */
  ghost predicate Answers(list: seq<Server>, tree: seq<Entry>) {
    |tree| == |list| && forall k {:trigger AnswersAt(list, tree, k)} :: 0 <= k < |list| ==> AnswersAt(list, tree, k)
  }

  ghost predicate AnswersAt(list: seq<Server>, tree: seq<Entry>, k: nat)
    requires k < |list| == |tree|
  {
    tree[k].host == list[k].host && tree[k].kind == ServerFromPort(list[k].adminPort)
  }

  /** The replies are what the servers said, in order. */
  ghost predicate Replied(list: seq<Server>, tree: seq<Entry>, from: Source, connections: map<Key, nat>) {
    && |tree| == |list|
    && forall k {:trigger RepliedAt(list, tree, from, connections, k)} ::
         0 <= k < |list| ==> RepliedAt(list, tree, from, connections, k)
  }

  ghost predicate RepliedAt(list: seq<Server>, tree: seq<Entry>, from: Source, connections: map<Key, nat>, k: nat)
    requires k < |list| == |tree|
  {
    tree[k].result == Trim(Reply(from, connections, k, list[k]))
  }

  /** All servers that the rows give for a wing, in the order in which they are asked. */
  ghost function WingOf(rows: seq<Row>, id: nat, primary: bool): seq<Server> {
    ServerList(rows, id, primary, 0) + ServerList(rows, id, primary, 1) + ServerList(rows, id, primary, 2)
  }

  /** The tree holds, for each server that the rows give for the wing, its reply under its host and kind. */
  ghost predicate RowsAnswer(rows: seq<Row>, id: nat, tree: seq<Entry>, from: Source, connections: map<Key, nat>) {
    var list := WingOf(rows, id, from.primary);
    Answers(list, tree) && Replied(list, tree, from, connections)
  }

  /** Statuses make no difference to who is asked. */
  lemma AnswersSame(lists: seq<seq<Server>>, tree: seq<Entry>, rows: seq<Row>, id: nat, from: Source,
                    connections: map<Key, nat>)
    requires WingAs(lists, rows, id, from.primary)
    requires Answers(AllOf(lists), tree) && Replied(AllOf(lists), tree, from, connections)
    ensures RowsAnswer(rows, id, tree, from, connections)
  {
    var all, list := AllOf(lists), WingOf(rows, id, from.primary);
    SameConcat(lists[0], lists[1], ServerList(rows, id, from.primary, 0), ServerList(rows, id, from.primary, 1));
    SameConcat(lists[0] + lists[1], lists[2],
               ServerList(rows, id, from.primary, 0) + ServerList(rows, id, from.primary, 1),
               ServerList(rows, id, from.primary, 2));
    forall k {:trigger AnswersAt(list, tree, k)} {:trigger RepliedAt(list, tree, from, connections, k)}
      | 0 <= k < |list|
      ensures AnswersAt(list, tree, k) && RepliedAt(list, tree, from, connections, k)
    {
      assert SameAt(all, list, k) && AnswersAt(all, tree, k) && RepliedAt(all, tree, from, connections, k);
      assert KeyOf(all[k]) == KeyOf(list[k]);
    }
  }

  lemma SameConcat(a: seq<Server>, b: seq<Server>, c: seq<Server>, d: seq<Server>)
    requires SameServers(a, c) && SameServers(b, d)
    ensures SameServers(a + b, c + d)
  {
    forall k {:trigger SameAt(a + b, c + d, k)} | 0 <= k < |a + b| ensures SameAt(a + b, c + d, k) {
      if k < |a| { assert SameAt(a, c, k); } else { assert SameAt(b, d, k - |a|); }
    }
  }

  /** Only the statuses change: to what was said, when the `first` replies before this list and those of its
      servers up to and including the one in question were there. */
  ghost predicate StatusesSaid(was: seq<Server>, now: seq<Server>, tree: seq<Entry>, first: nat) {
    && |now| == |was| && first + |was| <= |tree|
    && forall k {:trigger SaidAt(was, now, tree, first, k)} :: 0 <= k < |was| ==> SaidAt(was, now, tree, first, k)
  }

  ghost predicate SaidAt(was: seq<Server>, now: seq<Server>, tree: seq<Entry>, first: nat, k: nat)
    requires k < |was| == |now| && first + |was| <= |tree|
  {
    now[k] == was[k].(status := Said(tree, was[k], first + k + 1))
  }

  /** What a round does to a wing: one reply for each server, and nothing but statuses changes. */
  ghost predicate Asked(was: seq<seq<Server>>, now: seq<seq<Server>>, tree: seq<Entry>) {
    && |was| == |now| == 3
    && Answers(AllOf(was), tree)
    && StatusesSaid(was[0], now[0], tree, 0)
    && StatusesSaid(was[1], now[1], tree, |was[0]|)
    && StatusesSaid(was[2], now[2], tree, |was[0]| + |was[1]|)
  }

  /** Later replies do not change what had been said. */
  lemma StillSaid(was: seq<Server>, now: seq<Server>, tree: seq<Entry>, first: nat, later: seq<Entry>)
    requires StatusesSaid(was, now, tree, first) && |tree| <= |later| && SameReplies(tree, later[..|tree|])
    ensures StatusesSaid(was, now, later, first)
  {
    forall k | 0 <= k < |was| ensures SaidAt(was, now, later, first, k) {
      assert SaidAt(was, now, tree, first, k);
      SaidSame(tree, later[..|tree|], was[k], first + k + 1);
      SaidPrefix(later, |tree|, was[k], first + k + 1);
    }
  }

  lemma {:induction false} SaidPrefix(tree: seq<Entry>, m: nat, s: Server, n: nat)
    requires n <= m <= |tree|
    ensures Said(tree[..m], s, n) == Said(tree, s, n)
  {
    if n > 0 { SaidPrefix(tree, m, s, n - 1); }
  }

  /** A server with no earlier reply about it has the status of its own reply, or keeps its old status if that
      says nothing. */
  lemma {:induction false} OwnReply(tree: seq<Entry>, s: Server, n: nat)
    requires 0 < n <= |tree| && tree[n - 1].host == s.host && tree[n - 1].kind == ServerFromPort(s.adminPort)
    requires forall k :: 0 <= k < n - 1 ==> !About(tree[k], s)
    ensures var own := ParseStatus(tree[n - 1].result); Said(tree, s, n) == if own == UNKNOWN then s.status else own
  {
    NothingSaid(tree, s, n - 1);
    KindNames(s.adminPort);
  }

  /** Whose reply counts for a server: that of the same kind of server on its host, and that of a server of unknown
      kind there. */
  lemma AboutWhom(e: Entry, t: Server, s: Server)
    requires e.host == t.host && e.kind == ServerFromPort(t.adminPort)
    ensures About(e, s) <==>
              && t.host == s.host
              && (t.adminPort == s.adminPort || t.adminPort !in {1111, 2222, 3333, 4444})
  {
    KindNames(t.adminPort);
  }

  /** The last reply about a server that says anything gives its status; if there is none it keeps its own. */
  lemma {:induction false} LastSaid(tree: seq<Entry>, s: Server, n: nat, last: int)
    requires -1 <= last < n <= |tree|
    requires last >= 0 ==> About(tree[last], s) && ParseStatus(tree[last].result) != UNKNOWN
    requires forall k :: last < k < n && About(tree[k], s) ==> ParseStatus(tree[k].result) == UNKNOWN
    ensures Said(tree, s, n) == if last < 0 then s.status else ParseStatus(tree[last].result)
  {
    if last < n - 1 && n > 1 { LastSaid(tree, s, n - 1, last); }
  }

  lemma KindNames(port: nat)
    ensures ServerFromPort(port) == "rtmp streamer" ==> port == RTMP_PORT
    ensures ServerFromPort(port) == "hls streamer" ==> port == HLS_PORT
  {
  }

  lemma {:induction false} NothingSaid(tree: seq<Entry>, s: Server, n: nat)
    requires n <= |tree| && forall k :: 0 <= k < n ==> !About(tree[k], s)
    ensures Said(tree, s, n) == s.status
  {
    if n > 0 { NothingSaid(tree, s, n - 1); }
  }

  method AskWing(lists: seq<seq<Server>>, cfg: MonitorConfiguration, from: Source)
    returns (now: seq<seq<Server>>, tree: seq<Entry>)
    requires |lists| == 3 && ListsIn(lists, cfg.connections)
    ensures Asked(lists, now, tree) && Replied(AllOf(lists), tree, from, cfg.connections)
  {
    var x, y, z := lists[0], lists[1], lists[2];
    assert [] + x == x;
    var a, t := AskList(x, [], [], cfg, from);
    assert Answers(x, t) && Replied(x, t, from, cfg.connections);
    var b, u := AskList(y, t, x, cfg, from);
    StillSaid(x, a, t, 0, u);
    var c, v := AskList(z, u, x + y, cfg, from);
    RepliesChain(t, u, v);
    StillSaid(x, a, u, 0, v);
    StillSaid(y, b, u, |x|, v);
    now, tree := [a, b, c], v;
    assert AllOf(lists) == x + y + z;
  }

  lemma RepliesChain(t: seq<Entry>, u: seq<Entry>, v: seq<Entry>)
    requires |t| <= |u| <= |v| && SameReplies(t, u[..|t|]) && SameReplies(u, v[..|u|])
    ensures SameReplies(t, v[..|t|])
  {
  }

  /** Asks the servers of a list one after the other; `before` holds the replies of those asked before. */
  method AskList(list: seq<Server>, before: seq<Entry>, ghost asked: seq<Server>, cfg: MonitorConfiguration,
                 from: Source) returns (now: seq<Server>, tree: seq<Entry>)
    requires forall k :: 0 <= k < |list| ==> KeyOf(list[k]) in cfg.connections
    requires Answers(asked, before) && Replied(asked, before, from, cfg.connections)
    ensures Answers(asked + list, tree) && Replied(asked + list, tree, from, cfg.connections)
    ensures SameReplies(before, tree[..|before|])
    ensures StatusesSaid(list, now, tree, |asked|)
  {
    now, tree := [], before;
    assert asked + list[..0] == asked;
    var k := 0;
    while k < |list|
      invariant k <= |list| && Answers(asked + list[..k], tree) && SameReplies(before, tree[..|before|])
      invariant Replied(asked + list[..k], tree, from, cfg.connections)
      invariant StatusesSaid(list[..k], now, tree, |asked|)
    {
      now, tree := AskNext(list, k, now, before, tree, asked, cfg, from);
      k := k + 1;
    }
    assert list[..k] == list;
  }

  /** One turn of the loop. */
  method AskNext(list: seq<Server>, k: nat, done: seq<Server>, ghost before: seq<Entry>, was: seq<Entry>,
                 ghost asked: seq<Server>, cfg: MonitorConfiguration, from: Source)
    returns (now: seq<Server>, tree: seq<Entry>)
    requires k < |list| && KeyOf(list[k]) in cfg.connections
    requires Answers(asked + list[..k], was) && |before| == |asked| && SameReplies(before, was[..|before|])
    requires StatusesSaid(list[..k], done, was, |asked|) && Replied(asked + list[..k], was, from, cfg.connections)
    ensures Replied(asked + list[..k + 1], tree, from, cfg.connections)
    ensures Answers(asked + list[..k + 1], tree) && SameReplies(before, tree[..|before|])
    ensures StatusesSaid(list[..k + 1], now, tree, |asked|)
  {
    var s;
    s, tree := AskServer(list[k], was, cfg, from);
    StillSaid(list[..k], done, was, |asked|, tree);
    RepliesChain(before, was, tree);
    NextAnswer(asked, list, k, was, tree);
    NextReply(asked, list, k, was, tree, from, cfg.connections);
    now := done + [s];
    SaidSnoc(list, k, done, s, tree, |asked|);
  }

  lemma SaidSnoc(list: seq<Server>, k: nat, done: seq<Server>, s: Server, tree: seq<Entry>, first: nat)
    requires k < |list| && StatusesSaid(list[..k], done, tree, first) && |tree| == first + k + 1
    requires s == list[k].(status := Said(tree, list[k], |tree|))
    ensures StatusesSaid(list[..k + 1], done + [s], tree, first)
  {
    forall i {:trigger SaidAt(list[..k + 1], done + [s], tree, first, i)} | 0 <= i < k + 1
      ensures SaidAt(list[..k + 1], done + [s], tree, first, i)
    {
      SaidOn(list, k, done, s, tree, first, i);
    }
  }

  lemma SaidOn(list: seq<Server>, k: nat, done: seq<Server>, s: Server, tree: seq<Entry>, first: nat, i: nat)
    requires i <= k < |list| && StatusesSaid(list[..k], done, tree, first) && |tree| == first + k + 1
    requires s == list[k].(status := Said(tree, list[k], |tree|))
    ensures SaidAt(list[..k + 1], done + [s], tree, first, i)
  {
    assert list[..k + 1][i] == list[i];
    if i < k {
      assert SaidAt(list[..k], done, tree, first, i);
      assert list[..k][i] == list[i] && (done + [s])[i] == done[i];
    } else {
      assert (done + [s])[k] == s;
    }
  }

  lemma NextAnswer(asked: seq<Server>, list: seq<Server>, k: nat, was: seq<Entry>, tree: seq<Entry>)
    requires k < |list| && Answers(asked + list[..k], was)
    requires |tree| == |was| + 1 && SameReplies(was, tree[..|was|])
    requires tree[|was|].host == list[k].host && tree[|was|].kind == ServerFromPort(list[k].adminPort)
    ensures Answers(asked + list[..k + 1], tree)
  {
    var now := asked + list[..k + 1];
    assert now == asked + list[..k] + [list[k]];
    forall i {:trigger AnswersAt(now, tree, i)} | 0 <= i < |now| ensures AnswersAt(now, tree, i) {
      if i < |was| {
        assert AnswersAt(asked + list[..k], was, i);
        assert tree[..|was|][i] == tree[i];
      }
    }
  }

  lemma NextReply(asked: seq<Server>, list: seq<Server>, k: nat, was: seq<Entry>, tree: seq<Entry>, from: Source,
                  connections: map<Key, nat>)
    requires k < |list| && Replied(asked + list[..k], was, from, connections)
    requires |tree| == |was| + 1 && SameReplies(was, tree[..|was|])
    requires tree[|was|].result == Trim(Reply(from, connections, |was|, list[k]))
    ensures Replied(asked + list[..k + 1], tree, from, connections)
  {
    var now := asked + list[..k + 1];
    assert now == asked + list[..k] + [list[k]];
    forall i {:trigger RepliedAt(now, tree, from, connections, i)} | 0 <= i < |now|
      ensures RepliedAt(now, tree, from, connections, i)
    {
      if i < |was| {
        assert RepliedAt(asked + list[..k], was, from, connections, i);
        assert tree[..|was|][i] == tree[i];
      }
    }
  }

  /** Asks one server; the details it is asked for as well are not part of this model. */
  method AskServer(server: Server, before: seq<Entry>, cfg: MonitorConfiguration, from: Source)
    returns (now: Server, tree: seq<Entry>)
    requires KeyOf(server) in cfg.connections
    ensures now == server.(status := Said(tree, server, |tree|))
    ensures |tree| == |before| + 1 && SameReplies(before, tree[..|before|])
    ensures tree[|before|].host == server.host && tree[|before|].kind == ServerFromPort(server.adminPort)
    ensures tree[|before|].result ==
            Trim(from.replies(from.round, from.primary, |before|, cfg.connections[Key(server.host, server.adminPort)]))
  {
    var conn := cfg.GetConnection(server.host, server.adminPort);
    var reply := from.replies(from.round, from.primary, |before|, conn);
    var asked := before + [Entry(server.host, ServerFromPort(server.adminPort), Trim(reply), Nothing)];
    now, tree := UpdateFrom(server, asked);
    SaidSame(asked, tree, server, |tree|);
    forall i | 0 <= i < |before|
      ensures tree[i].host == before[i].host && tree[i].kind == before[i].kind && tree[i].result == before[i].result {
      assert asked[i] == before[i];
    }
  }

  /** An entry is taken for a server if the hosts agree and the kind does not speak against it. */
  predicate About(e: Entry, s: Server) {
    && e.host == s.host
    && !(e.kind == "streamdup" && s.adminPort != DUP_PORT)
    && !(e.kind == "masterbox" && s.adminPort != BOX_PORT)
    && !(e.kind == "rtmp streamer" && s.adminPort != RTMP_PORT)
    && !(e.kind == "hls streamer" && s.adminPort != HLS_PORT)
  }

  /** The status of a server after the first `n` entries: what the last entry about it says that says anything. */
  ghost function Said(tree: seq<Entry>, s: Server, n: nat): Status
    requires n <= |tree|
  {
    if n == 0 then s.status
    else if About(tree[n - 1], s) && ParseStatus(tree[n - 1].result) != UNKNOWN then ParseStatus(tree[n - 1].result)
    else Said(tree, s, n - 1)
  }

  ghost predicate SameReplies(a: seq<Entry>, b: seq<Entry>) {
    && |a| == |b|
    && forall k ::
         0 <= k < |a| ==> a[k].host == b[k].host && a[k].kind == b[k].kind && a[k].result == b[k].result
  }

  method UpdateFrom(server: Server, entries: seq<Entry>) returns (now: Server, tree: seq<Entry>)
    ensures now == server.(status := Said(entries, server, |entries|))
    ensures SameReplies(entries, tree)
    ensures forall k :: 0 <= k < |tree| ==>
              tree[k].put == if About(entries[k], server) then Extra(server.protocol, server.port, server.leaf)
              else entries[k].put
  {
    now, tree := server, entries;
    var k := 0;
    while k < |entries|
      invariant k <= |entries| && now == server.(status := Said(entries, server, k))
      invariant SameReplies(entries, tree)
      invariant forall i :: k <= i < |entries| ==> tree[i] == entries[i]
      invariant forall i :: 0 <= i < k ==>
                  tree[i].put == if About(entries[i], server) then Extra(server.protocol, server.port, server.leaf)
                  else entries[i].put
    {
      if About(tree[k], server) {
        var said := ParseStatus(tree[k].result);
        if said != UNKNOWN { now := now.(status := said); }
        tree := tree[k := tree[k].(put := Extra(server.protocol, server.port, server.leaf))];
      }
      k := k + 1;
    }
  }

  lemma {:induction false} SaidSame(a: seq<Entry>, b: seq<Entry>, s: Server, n: nat)
    requires SameReplies(a, b) && n <= |a|
    ensures Said(a, s, n) == Said(b, s, n)
  {
    if n > 0 { SaidSame(a, b, s, n - 1); }
  }

  // ------------------------------------------------------------------ the status of a wing

  /** In which list a reply is counted: every kind but the first two counts as a streamer. */
  function Counts(kind: string): nat {
    if kind == "streamdup" then 0 else if kind == "masterbox" then 1 else 2
  }

  /** What the replies counted in list `j` say, without their first word. */
  ghost function Says(tree: seq<Entry>, j: nat): seq<string> {
    if tree == [] then []
    else
      var e := tree[|tree| - 1];
      Says(tree[..|tree| - 1], j) + (if Counts(e.kind) == j then [AfterSpace(e.result)] else [])
  }

  /** The merged replies of the streamers, or of the masterboxes if those say nothing. */
  ghost predicate StreamersFirst(tree: seq<Entry>, status: Status) {
    var v, m := Global(Parsed(Says(tree, 2))), Global(Parsed(Says(tree, 1)));
    (v != UNKNOWN ==> status == v) && (v == UNKNOWN ==> status == m)
  }

  /** The same servers in the same order, up to their statuses. */
  ghost predicate SameServers(list: seq<Server>, other: seq<Server>) {
    && |list| == |other|
    && forall k {:trigger SameAt(list, other, k)} :: 0 <= k < |list| ==> SameAt(list, other, k)
  }

  ghost predicate SameAt(list: seq<Server>, other: seq<Server>, k: nat)
    requires k < |list| == |other|
  {
    list[k] == other[k].(status := list[k].status)
  }

  /** The three lists of a wing are those that the rows give for it, up to statuses. */
  ghost predicate WingAs(lists: seq<seq<Server>>, rows: seq<Row>, id: nat, primary: bool) {
    && |lists| == 3
    && SameServers(lists[0], ServerList(rows, id, primary, 0))
    && SameServers(lists[1], ServerList(rows, id, primary, 1))
    && SameServers(lists[2], ServerList(rows, id, primary, 2))
  }

  /** A round leaves the lists of a wing as the rows give them. */
  lemma AskedSame(was: seq<seq<Server>>, now: seq<seq<Server>>, tree: seq<Entry>, rows: seq<Row>, id: nat,
                  primary: bool)
    requires WingAs(was, rows, id, primary) && Asked(was, now, tree)
    ensures WingAs(now, rows, id, primary)
  {
    SaidKeeps(was[0], now[0], tree, 0, ServerList(rows, id, primary, 0));
    SaidKeeps(was[1], now[1], tree, |was[0]|, ServerList(rows, id, primary, 1));
    SaidKeeps(was[2], now[2], tree, |was[0]| + |was[1]|, ServerList(rows, id, primary, 2));
  }

  lemma SaidKeeps(was: seq<Server>, now: seq<Server>, tree: seq<Entry>, first: nat, given: seq<Server>)
    requires StatusesSaid(was, now, tree, first) && SameServers(was, given)
    ensures SameServers(now, given)
  {
    forall k {:trigger SameAt(now, given, k)} | 0 <= k < |now| ensures SameAt(now, given, k) {
      assert SaidAt(was, now, tree, first, k) && SameAt(was, given, k);
    }
  }

  /** The replies of the servers of a list, as statuses in the order of the list, when `first` others are asked before
      them. */
  ghost predicate IsHeard(heard: seq<Status>, list: seq<Server>, first: nat, from: Source, connections: map<Key, nat>) {
    && |heard| == |list|
    && forall k {:trigger HeardAt(heard, list, first, from, connections, k)} ::
         0 <= k < |heard| ==> HeardAt(heard, list, first, from, connections, k)
  }

  ghost predicate HeardAt(heard: seq<Status>, list: seq<Server>, first: nat, from: Source, connections: map<Key, nat>,
                          k: nat)
    requires k < |heard| == |list|
  {
    heard[k] == ParseStatus(AfterSpace(Trim(Reply(from, connections, first + k, list[k]))))
  }

  /** Every server is asked by the connection of its host and admin port, list by list; of its reply the first word and
      the last lines go, and the rest is read as a status. */
  lemma HeardMeans(heard: seq<Status>, list: seq<Server>, first: nat, from: Source, connections: map<Key, nat>)
    requires forall k :: 0 <= k < |list| ==> Key(list[k].host, list[k].adminPort) in connections
    ensures IsHeard(heard, list, first, from, connections) <==>
              && |heard| == |list|
              && forall k :: 0 <= k < |list| ==>
                   var number := connections[Key(list[k].host, list[k].adminPort)];
                   heard[k] == ParseStatus(AfterSpace(Trim(from.replies(from.round, from.primary, first + k, number))))
  {
    if IsHeard(heard, list, first, from, connections) {
      forall k | 0 <= k < |list|
        ensures var number := connections[Key(list[k].host, list[k].adminPort)];
                heard[k] == ParseStatus(AfterSpace(Trim(from.replies(from.round, from.primary, first + k, number))))
      {
        assert HeardAt(heard, list, first, from, connections, k);
      }
    }
  }

  /** The streamers decide, or the masterboxes if those say nothing. */
  ghost predicate DecidedBy(boxes: seq<Server>, dups: nat, streamers: seq<Server>, from: Source,
                            connections: map<Key, nat>, status: Status) {
    forall v, m {:trigger IsHeard(v, streamers, dups + |boxes|, from, connections),
                          IsHeard(m, boxes, dups, from, connections)} ::
      IsHeard(v, streamers, dups + |boxes|, from, connections) && IsHeard(m, boxes, dups, from, connections) ==>
        status == if Global(v) != UNKNOWN then Global(v) else Global(m)
  }

  lemma DecisionIs(boxes: seq<Server>, dups: nat, streamers: seq<Server>, from: Source, connections: map<Key, nat>,
                   status: Status, v: seq<Status>, m: seq<Status>)
    requires DecidedBy(boxes, dups, streamers, from, connections, status)
    requires IsHeard(v, streamers, dups + |boxes|, from, connections) && IsHeard(m, boxes, dups, from, connections)
    ensures Global(v) != UNKNOWN ==> status == Global(v)
    ensures Global(v) == UNKNOWN ==> status == Global(m)
  {
    assert status == if Global(v) != UNKNOWN then Global(v) else Global(m);
  }

  /** The part of the tree that answers a list, read as statuses. */
  lemma HeardInTree(all: seq<Server>, list: seq<Server>, first: nat, tree: seq<Entry>, from: Source,
                    connections: map<Key, nat>, heard: seq<Status>, end: nat)
    requires end == first + |list| <= |all| && all[first..end] == list && Replied(all, tree, from, connections)
    requires IsHeard(heard, list, first, from, connections)
    ensures heard == Parsed(Results(tree[first..end]))
  {
    var part := tree[first..end];
    forall k | 0 <= k < |list| ensures heard[k] == Parsed(Results(part))[k] {
      assert list[k] == all[first + k] && part[k] == tree[first + k];
      assert RepliedAt(all, tree, from, connections, first + k) && HeardAt(heard, list, first, from, connections, k);
    }
  }

  /** Statuses make no difference to what servers reply. */
  lemma SameHeard(list: seq<Server>, other: seq<Server>, first: nat, from: Source, connections: map<Key, nat>,
                  heard: seq<Status>)
    requires SameServers(list, other) && IsHeard(heard, other, first, from, connections)
    ensures IsHeard(heard, list, first, from, connections)
  {
    forall k {:trigger HeardAt(heard, list, first, from, connections, k)} | 0 <= k < |list|
      ensures HeardAt(heard, list, first, from, connections, k)
    {
      assert SameAt(list, other, k) && HeardAt(heard, other, first, from, connections, k);
    }
  }

  /** All servers of the list come from a row, and belong in list `j`. */
  ghost predicate GivenList(list: seq<Server>, j: nat) {
    forall k :: 0 <= k < |list| ==> FromRow(list[k]) && ListOf(list[k].kind) == j
  }

  lemma FromRows(rows: seq<Row>, id: nat, list: seq<Server>, j: nat)
    requires j < 3 && SameServers(list, ServerList(rows, id, true, j))
    ensures GivenList(list, j)
  {
    NamedFromRows(rows, id, true);
    CollectedKeys(Named(rows, id, true), j, Key("", 0));
    forall k | 0 <= k < |list| ensures FromRow(list[k]) && ListOf(list[k].kind) == j {
      assert SameAt(list, ServerList(rows, id, true, j), k);
    }
  }

  /** In a round of a loaded stream the streamers of the primary wing decide, or its masterboxes if those say
      nothing. */
  lemma RoundMeans(rows: seq<Row>, id: nat, lists: seq<seq<Server>>, tree: seq<Entry>, from: Source,
                   connections: map<Key, nat>, status: Status)
    requires WingAs(lists, rows, id, true) && StreamersFirst(tree, status)
    requires Answers(AllOf(lists), tree) && Replied(AllOf(lists), tree, from, connections)
    ensures DecidedBy(ServerList(rows, id, true, 1), |ServerList(rows, id, true, 0)|, ServerList(rows, id, true, 2),
                      from, connections, status)
  {
    var a, b := GivenLists(rows, id, lists);
    ListsDecide(lists, a, ServerList(rows, id, true, 1), ServerList(rows, id, true, 2), tree, from, connections,
                status);
  }

  lemma ListsDecide(lists: seq<seq<Server>>, dups: nat, boxes: seq<Server>, streamers: seq<Server>, tree: seq<Entry>,
                    from: Source, connections: map<Key, nat>, status: Status)
    requires |lists| == 3 && |lists[0]| == dups && SameServers(lists[1], boxes) && SameServers(lists[2], streamers)
    requires GivenList(lists[0], 0) && GivenList(lists[1], 1) && GivenList(lists[2], 2)
    requires Answers(AllOf(lists), tree) && Replied(AllOf(lists), tree, from, connections)
    requires StreamersFirst(tree, status)
    ensures DecidedBy(boxes, dups, streamers, from, connections, status)
  {
    forall v, m {:trigger IsHeard(v, streamers, dups + |boxes|, from, connections),
                          IsHeard(m, boxes, dups, from, connections)}
      | IsHeard(v, streamers, dups + |boxes|, from, connections) && IsHeard(m, boxes, dups, from, connections)
      ensures status == if Global(v) != UNKNOWN then Global(v) else Global(m)
    {
      SameHeard(lists[1], boxes, dups, from, connections, m);
      SameHeard(lists[2], streamers, dups + |boxes|, from, connections, v);
      WingHeard(lists, tree, from, connections, v, m);
    }
  }

  /** What is counted for masterboxes and streamers is what they reply. */
  lemma WingHeard(lists: seq<seq<Server>>, tree: seq<Entry>, from: Source, connections: map<Key, nat>,
                  v: seq<Status>, m: seq<Status>)
    requires |lists| == 3 && Answers(AllOf(lists), tree) && Replied(AllOf(lists), tree, from, connections)
    requires GivenList(lists[0], 0) && GivenList(lists[1], 1) && GivenList(lists[2], 2)
    requires IsHeard(v, lists[2], |lists[0]| + |lists[1]|, from, connections)
    requires IsHeard(m, lists[1], |lists[0]|, from, connections)
    ensures Parsed(Says(tree, 2)) == v && Parsed(Says(tree, 1)) == m
  {
    assert Parsed(Says(tree, 2)) == v by { StreamersHeard(lists, tree, from, connections, v); }
    assert Parsed(Says(tree, 1)) == m by { BoxesHeard(lists, tree, from, connections, m); }
  }

  lemma StreamersHeard(lists: seq<seq<Server>>, tree: seq<Entry>, from: Source, connections: map<Key, nat>,
                       v: seq<Status>)
    requires |lists| == 3 && Answers(AllOf(lists), tree) && Replied(AllOf(lists), tree, from, connections)
    requires GivenList(lists[0], 0) && GivenList(lists[1], 1) && GivenList(lists[2], 2)
    requires IsHeard(v, lists[2], |lists[0]| + |lists[1]|, from, connections)
    ensures Parsed(Says(tree, 2)) == v
  {
    WingReplies(lists, tree);
    PlacesInWing(lists[0], lists[1], lists[2]);
    HeardInTree(AllOf(lists), lists[2], |lists[0]| + |lists[1]|, tree, from, connections, v, |tree|);
  }

  lemma BoxesHeard(lists: seq<seq<Server>>, tree: seq<Entry>, from: Source, connections: map<Key, nat>, m: seq<Status>)
    requires |lists| == 3 && Answers(AllOf(lists), tree) && Replied(AllOf(lists), tree, from, connections)
    requires GivenList(lists[0], 0) && GivenList(lists[1], 1) && GivenList(lists[2], 2)
    requires IsHeard(m, lists[1], |lists[0]|, from, connections)
    ensures Parsed(Says(tree, 1)) == m
  {
    WingReplies(lists, tree);
    PlacesInWing(lists[0], lists[1], lists[2]);
    HeardInTree(AllOf(lists), lists[1], |lists[0]|, tree, from, connections, m, |lists[0]| + |lists[1]|);
  }

  lemma PlacesInWing(a: seq<Server>, b: seq<Server>, c: seq<Server>)
    ensures (a + b + c)[|a|..|a| + |b|] == b && (a + b + c)[|a| + |b|..|a| + |b| + |c|] == c
  {
  }

  lemma GivenLists(rows: seq<Row>, id: nat, lists: seq<seq<Server>>) returns (a: nat, b: nat)
    requires WingAs(lists, rows, id, true)
    ensures GivenList(lists[0], 0) && GivenList(lists[1], 1) && GivenList(lists[2], 2)
    ensures |lists[0]| == |ServerList(rows, id, true, 0)| == a && |lists[1]| == |ServerList(rows, id, true, 1)| == b
    ensures |lists[2]| == |ServerList(rows, id, true, 2)|
  {
    a, b := |lists[0]|, |lists[1]|;
    FromRows(rows, id, lists[0], 0);
    FromRows(rows, id, lists[1], 1);
    FromRows(rows, id, lists[2], 2);
  }

  method WingStatus(tree: seq<Entry>) returns (status: Status)
    ensures Global(Parsed(Says(tree, 2))) != UNKNOWN ==> status == Global(Parsed(Says(tree, 2)))
    ensures Global(Parsed(Says(tree, 2))) == UNKNOWN ==> status == Global(Parsed(Says(tree, 1)))
  {
    var streamdups, masterboxes, streamers := [], [], [];
    var k := 0;
    while k < |tree|
      invariant k <= |tree|
      invariant masterboxes == Says(tree[..k], 1) && streamers == Says(tree[..k], 2)
    {
      assert tree[..k + 1][..k] == tree[..k];
      var said := AfterSpace(tree[k].result);
      if tree[k].kind == "streamdup" {
        streamdups := streamdups + [said];
      } else if tree[k].kind == "masterbox" {
        masterboxes := masterboxes + [said];
      } else {
        streamers := streamers + [said];
      }
      k := k + 1;
    }
    assert tree[..k] == tree;
    status := GetGlobalStatus(streamers);
    if status == UNKNOWN {
      status := GetGlobalStatus(masterboxes);
    }
  }

  /** All replies are counted in list `j`. */
  ghost predicate AllCount(tree: seq<Entry>, j: nat) {
    forall k {:trigger tree[k]} :: 0 <= k < |tree| ==> Counts(tree[k].kind) == j
  }

  /** In the tree of a wing loaded from rows the replies counted in a list are those of the servers of that
      list, in order: the streamdups have no part in the status. */
  lemma WingReplies(lists: seq<seq<Server>>, tree: seq<Entry>)
    requires |lists| == 3 && Answers(AllOf(lists), tree)
    requires GivenList(lists[0], 0) && GivenList(lists[1], 1) && GivenList(lists[2], 2)
    ensures |tree| == |lists[0]| + |lists[1]| + |lists[2]|
    ensures var m, n := |lists[0]|, |lists[0]| + |lists[1]|;
            && Says(tree, 1) == Results(tree[m..n])
            && Says(tree, 2) == Results(tree[n..|tree|])
  {
    var m, n := |lists[0]|, |lists[0]| + |lists[1]|;
    CountedAll(lists, tree, 0, 0, m);
    CountedAll(lists, tree, 1, m, n);
    CountedAll(lists, tree, 2, n, |tree|);
    PartsSay(tree, m, n);
  }

  lemma ThreeParts<T>(s: seq<T>, m: nat, n: nat)
    requires m <= n <= |s|
    ensures s == s[0..m] + s[m..n] + s[n..|s|]
  {
  }

  lemma PartsSay(tree: seq<Entry>, m: nat, n: nat)
    requires m <= n <= |tree|
    requires AllCount(tree[0..m], 0) && AllCount(tree[m..n], 1) && AllCount(tree[n..|tree|], 2)
    ensures Says(tree, 1) == Results(tree[m..n]) && Says(tree, 2) == Results(tree[n..|tree|])
  {
    ThreeParts(tree, m, n);
    PartSays(tree[0..m], tree[m..n], tree[n..|tree|], 1);
    PartSays(tree[0..m], tree[m..n], tree[n..|tree|], 2);
  }

  lemma PartSays(a: seq<Entry>, b: seq<Entry>, c: seq<Entry>, j: nat)
    requires 1 <= j <= 2 && AllCount(a, 0) && AllCount(b, 1) && AllCount(c, 2)
    ensures Says(a + b + c, j) == Results(if j == 1 then b else c)
  {
    SaysThree(a, b, c, j);
    SaysNone(a, 0, j);
    if j == 1 {
      SaysOwn(b, 1);
      SaysNone(c, 2, 1);
      Around(Results(b));
    } else {
      SaysNone(b, 1, 2);
      SaysOwn(c, 2);
      Around(Results(c));
    }
  }

  lemma Around<T>(s: seq<T>)
    ensures [] + s + [] == s && [] + [] + s == s
  {
  }

  lemma {:induction false} SaysNone(tree: seq<Entry>, j: nat, other: nat)
    requires j != other && AllCount(tree, j)
    ensures Says(tree, other) == []
  {
    if tree != [] { SaysNone(tree[..|tree| - 1], j, other); }
  }

  lemma SaysThree(a: seq<Entry>, b: seq<Entry>, c: seq<Entry>, j: nat)
    ensures Says(a + b + c, j) == Says(a, j) + Says(b, j) + Says(c, j)
  {
    SaysConcat(a + b, c, j);
    SaysConcat(a, b, j);
  }

  lemma CountedAll(lists: seq<seq<Server>>, tree: seq<Entry>, j: nat, from: nat, end: nat)
    requires |lists| == 3 && Answers(AllOf(lists), tree) && j < 3 && GivenList(lists[j], j)
    requires from == (if j == 0 then 0 else if j == 1 then |lists[0]| else |lists[0]| + |lists[1]|)
    requires end == from + |lists[j]|
    ensures end <= |tree| && AllCount(tree[from..end], j)
  {
    forall k {:trigger tree[from..end][k]} | 0 <= k < end - from ensures Counts(tree[from..end][k].kind) == j {
      PlaceInAll(lists, j, from, k);
      assert AnswersAt(AllOf(lists), tree, from + k);
    }
  }

  lemma PlaceInAll(lists: seq<seq<Server>>, j: nat, from: nat, k: nat)
    requires |lists| == 3 && j < 3 && k < |lists[j]|
    requires from == (if j == 0 then 0 else if j == 1 then |lists[0]| else |lists[0]| + |lists[1]|)
    ensures from + k < |AllOf(lists)| && AllOf(lists)[from + k] == lists[j][k]
  {
  }

  ghost function Results(tree: seq<Entry>): seq<string> {
    seq(|tree|, k requires 0 <= k < |tree| => AfterSpace(tree[k].result))
  }

  lemma {:induction false} SaysConcat(a: seq<Entry>, b: seq<Entry>, j: nat)
    ensures Says(a + b, j) == Says(a, j) + Says(b, j)
  {
    if b == [] {
      assert a + b == a;
    } else {
      assert (a + b)[..|a + b| - 1] == a + b[..|b| - 1];
      SaysConcat(a, b[..|b| - 1], j);
    }
  }

  lemma {:induction false} SaysOwn(tree: seq<Entry>, j: nat)
    requires forall k :: 0 <= k < |tree| ==> Counts(tree[k].kind) == j
    ensures Says(tree, j) == Results(tree)
  {
    if tree != [] {
      SaysOwn(tree[..|tree| - 1], j);
      assert Results(tree) == Results(tree[..|tree| - 1]) + [AfterSpace(tree[|tree| - 1].result)];
    }
  }

  class MonitorConfiguration {
    var streamsInfos: map<nat, StreamInfos>
    var connections: map<Key, nat>  // which of the connections created so far
    var created: nat

    constructor ()
      ensures streamsInfos == map[] && connections == map[] && created == 0
    {
      streamsInfos, connections, created := map[], map[], 0;
    }

    /** One connection was created for each key: their numbers are those below `created`, each once. */
    ghost predicate OneEach()
      reads this`connections, this`created
    {
      && |connections| == created
      && (forall key :: key in connections ==> connections[key] < created)
      && (forall key, other ::
             key in connections && other in connections && connections[key] == connections[other] ==> key == other)
    }

    /** The index agrees with the rows: a stream for each id, with its servers, and a connection for each key. */
    ghost predicate Loaded(rows: seq<Row>)
      reads this, streamsInfos.Values
    {
      StreamsLoaded(rows) && ConnectionsLoaded(rows)
    }

    ghost predicate ConnectionsLoaded(rows: seq<Row>)
      reads this`connections, this`created
    {
      OneEach() && forall key {:trigger key in connections} :: key in connections <==> RowsHaveKey(rows, key)
    }

    ghost predicate StreamsLoaded(rows: seq<Row>)
      reads this`streamsInfos, streamsInfos.Values
    {
      && (forall id :: id in streamsInfos <==> Mentioned(rows, id))
      && (forall id, other ::
             id in streamsInfos && other in streamsInfos && id != other ==> streamsInfos[id] != streamsInfos[other])
      && (forall id {:trigger InfosAt(rows, id)} :: id in streamsInfos ==> InfosAt(rows, id))
    }

    ghost predicate InfosAt(rows: seq<Row>, id: nat)
      requires id in streamsInfos
      reads this`streamsInfos, streamsInfos[id]
    {
      streamsInfos[id].streamId == id && streamsInfos[id].Holds(Named(rows, id, true), Named(rows, id, false))
    }

    method GetConnection(host: string, port: nat) returns (number: nat)
      requires Key(host, port) in connections
      ensures number == connections[Key(host, port)]
    {
      var key := Key(host, port);
      assert key in connections;
      return connections[key];
    }

    /** Creates the connections of a row that are not there yet. */
    method PrepareConnections(keys: seq<Key>)
      requires OneEach()
      modifies this`connections, this`created
      ensures OneEach()
      ensures forall key :: key in connections <==> key in old(connections) || key in keys
    {
      var n := 0;
      while n < |keys|
        invariant n <= |keys| && OneEach()
        invariant forall key :: key in connections <==> key in old(connections) || key in keys[..n]
      {
        ghost var next := PrefixSnoc(keys, n);
        if keys[n] !in connections {
          connections := connections[keys[n] := created];
          created := created + 1;
        }
        assert forall key :: key in next <==> key in keys[..n] || key == keys[n];
        n := n + 1;
      }
      assert keys[..n] == keys;
    }

    /** The stream of a row, new if it is the first with that id. */
    method FindStream(id: nat) returns (infos: StreamInfos)
      modifies this`streamsInfos
      ensures streamsInfos == old(streamsInfos)[id := infos]
      ensures id in old(streamsInfos) ==> infos == old(streamsInfos[id])
      ensures id !in old(streamsInfos) ==> fresh(infos) && infos.streamId == id && infos.Holds([], [])
    {
      if id in streamsInfos {
        infos := streamsInfos[id];
      } else {
        infos := new StreamInfos(id);
        streamsInfos := streamsInfos[id := infos];
      }
    }

    /** The connections of a row. */
    method LoadConnections(r: Row, ghost rows: seq<Row>)
      requires ConnectionsLoaded(rows)
      modifies this`connections, this`created
      ensures ConnectionsLoaded(rows + [r])
    {
      PrepareConnections(RowKeys(r));
      forall key ensures RowsHaveKey(rows + [r], key) <==> RowsHaveKey(rows, key) || key in RowKeys(r) {
        RowsHaveKeySnoc(rows, r, key);
      }
    }

    /** The servers of a row. */
    method LoadServers(r: Row, ghost rows: seq<Row>)
      requires StreamsLoaded(rows)
      modifies this`streamsInfos, streamsInfos.Values
      ensures StreamsLoaded(rows + [r]) && fresh(streamsInfos.Values - old(streamsInfos.Values))
    {
      ghost var p, b := StreamServers(r.streamId, rows);
      var infos := FindStream(r.streamId);
      infos.AddRow(r, p, b);
      ghost var all := OneMoreNamed(r, rows, p, b);
      assert InfosAt(all, r.streamId);
      OneMoreRow(r, rows);
    }

    lemma OneMoreNamed(r: Row, rows: seq<Row>, p: seq<Server>, b: seq<Server>) returns (all: seq<Row>)
      requires p == Named(rows, r.streamId, true) && b == Named(rows, r.streamId, false)
      ensures all == rows + [r]
      ensures Named(all, r.streamId, true) == if r.primary then p + RowServers(r) else p
      ensures Named(all, r.streamId, false) == if r.primary then b else b + RowServers(r)
    {
      all := rows + [r];
      NamedNext(rows, r);
    }

    /** What the stream has before a row is loaded; nothing if it is new. */
    lemma StreamServers(id: nat, rows: seq<Row>) returns (p: seq<Server>, b: seq<Server>)
      requires StreamsLoaded(rows)
      ensures p == Named(rows, id, true) && b == Named(rows, id, false)
      ensures if id in streamsInfos then streamsInfos[id].streamId == id && streamsInfos[id].Holds(p, b)
              else p == [] && b == []
    {
      p, b := Named(rows, id, true), Named(rows, id, false);
      if id in streamsInfos { assert InfosAt(rows, id); } else { NotNamed(rows, id); }
    }

    /** Only the stream of the row changed, by the servers of the row. */
    twostate lemma OneMoreRow(new r: Row, new rows: seq<Row>)
      requires old(StreamsLoaded(rows)) && r.streamId in streamsInfos
      requires streamsInfos == old(streamsInfos)[r.streamId := streamsInfos[r.streamId]]
      requires r.streamId in old(streamsInfos) ==> streamsInfos[r.streamId] == old(streamsInfos[r.streamId])
      requires r.streamId !in old(streamsInfos) ==> fresh(streamsInfos[r.streamId])
      requires InfosAt(rows + [r], r.streamId)
      requires forall id :: id in old(streamsInfos) && id != r.streamId ==> unchanged(old(streamsInfos[id]))
      ensures StreamsLoaded(rows + [r])
    {
      NamedNext(rows, r);
      forall id | id in streamsInfos ensures InfosAt(rows + [r], id) {
        if id != r.streamId { assert old(InfosAt(rows, id)); }
      }
    }

    method LoadRow(r: Row, ghost rows: seq<Row>)
      requires Loaded(rows)
      modifies this, streamsInfos.Values
      ensures Loaded(rows + [r]) && fresh(streamsInfos.Values - old(streamsInfos.Values))
    {
      LoadServers(r, rows);
      LoadConnections(r, rows);
    }

    method Clear()
      modifies this
      ensures Loaded([]) && streamsInfos == map[]
    {
      streamsInfos, connections, created := map[], map[], 0;
    }

    /** Afterwards there is a stream for each id in the rows, a connection to the admin port of each host that a
        row names, and the lists of `LoadedServers`. */
    method LoadStreamList(rows: seq<Row>)
      modifies this
      ensures Loaded(rows)
      ensures forall id: nat :: id in streamsInfos <==> exists n :: 0 <= n < |rows| && rows[n].streamId == id
      ensures forall key {:trigger key in connections} :: key in connections <==>
                exists n :: 0 <= n < |rows|
                  && (key == Key(rows[n].dupHost, 1111) || key == Key(rows[n].boxHost, 2222)
                      || (rows[n].streamerHost.Some?
                          && (key == Key(rows[n].streamerHost.value, 3333)
                              || key == Key(rows[n].streamerHost.value, 4444))))
    {
      Clear();
      ghost var done: seq<Row> := [];
      var n := 0;
      while n < |rows|
        invariant n <= |rows| && done == rows[..n] && Loaded(done) && fresh(streamsInfos.Values)
      {
        ghost var next := PrefixSnoc(rows, n);
        LoadRow(rows[n], done);
        done := next;
        n := n + 1;
      }
      assert done == rows;
      LoadedKeys(rows);
    }

    lemma LoadedKeys(rows: seq<Row>)
      requires ConnectionsLoaded(rows)
      ensures forall key {:trigger key in connections} :: key in connections <==>
                exists n :: 0 <= n < |rows|
                  && (key == Key(rows[n].dupHost, 1111) || key == Key(rows[n].boxHost, 2222)
                      || (rows[n].streamerHost.Some?
                          && (key == Key(rows[n].streamerHost.value, 3333)
                              || key == Key(rows[n].streamerHost.value, 4444))))
    {
      forall key {:trigger key in connections}
        ensures key in connections <==>
                exists n :: 0 <= n < |rows|
                  && (key == Key(rows[n].dupHost, 1111) || key == Key(rows[n].boxHost, 2222)
                      || (rows[n].streamerHost.Some?
                          && (key == Key(rows[n].streamerHost.value, 3333)
                              || key == Key(rows[n].streamerHost.value, 4444))))
      {
        KeysNamed(rows, key);
      }
    }

    /** The servers of a loaded stream, by the fields of the rows: of the streamdups and masterboxes with one host and
        port the first that a row of the wing names, and both streamers of each host named. */
    lemma LoadedServers(rows: seq<Row>, id: nat, primary: bool, s: Server)
      requires Loaded(rows) && id in streamsInfos
      ensures streamsInfos[id].streamId == id && streamsInfos[id].Shaped()
      ensures s in streamsInfos[id].servers[if primary then 0 else 1][0] <==>
              exists n :: 0 <= n < |rows| && rows[n].streamId == id && rows[n].primary == primary
                && s == Server(rows[n].dupHost, 1111, rows[n].dupMode + " " + rows[n].dupProtocol, rows[n].dupPort,
                               StreamDup, UNKNOWN, false)
                && forall m :: 0 <= m < n && rows[m].streamId == id && rows[m].primary == primary ==>
                     rows[m].dupHost != s.host || rows[m].dupPort != s.port
      ensures s in streamsInfos[id].servers[if primary then 0 else 1][1] <==>
              exists n :: 0 <= n < |rows| && rows[n].streamId == id && rows[n].primary == primary
                && s == Server(rows[n].boxHost, 2222, "tcp", rows[n].boxPort, MasterBox, UNKNOWN, rows[n].boxLeaf)
                && forall m :: 0 <= m < n && rows[m].streamId == id && rows[m].primary == primary ==>
                     rows[m].boxHost != s.host || rows[m].boxPort != s.port
      ensures s in streamsInfos[id].servers[if primary then 0 else 1][2] <==>
              (exists n :: 0 <= n < |rows| && rows[n].streamId == id && rows[n].primary == primary
                 && rows[n].streamerHost == Some(s.host))
              && (s == Server(s.host, 3333, "flv/tcp", 1936, StreamerRtmp, UNKNOWN, false)
                  || s == Server(s.host, 4444, "http", 80, StreamerHls, UNKNOWN, false))
    {
      assert InfosAt(rows, id);
      LoadedList(rows, id, primary, 0);
      LoadedList(rows, id, primary, 1);
      LoadedList(rows, id, primary, 2);
      ListedDups(rows, id, primary, s);
      ListedBoxes(rows, id, primary, s);
      ListedStreamers(rows, id, primary, s);
    }

    lemma LoadedList(rows: seq<Row>, id: nat, primary: bool, j: nat)
      requires StreamsLoaded(rows) && id in streamsInfos && j < 3
      ensures streamsInfos[id].Shaped()
      ensures streamsInfos[id].servers[if primary then 0 else 1][j] == ServerList(rows, id, primary, j)
    {
      assert InfosAt(rows, id);
    }

    /** After loading, the connection map has exactly the keys of the servers of all streams. */
    lemma IndexAgrees(rows: seq<Row>, key: Key)
      requires Loaded(rows)
      ensures key in connections <==> exists id, i, j :: InLists(id, i, j, key)
    {
      KeysAgree(rows, key);
      if id: nat, primary: bool, j: nat :| j < 3 && ListHasKey(ServerList(rows, id, primary, j), key) {
        StreamOfKey(rows, id, primary, j, key);
        assert InfosAt(rows, id);
        assert InLists(id, if primary then 0 else 1, j, key);
      }
      if id, i, j :| InLists(id, i, j, key) {
        assert InfosAt(rows, id);
        assert ListHasKey(ServerList(rows, id, i == 0, j), key);
      }
    }

    /** A server of that stream, wing and kind has that key. */
    ghost predicate InLists(id: nat, i: nat, j: nat, key: Key)
      reads this`streamsInfos, streamsInfos.Values
    {
      && id in streamsInfos && streamsInfos[id].Shaped() && i < 2 && j < 3
      && ListHasKey(streamsInfos[id].servers[i][j], key)
    }
  }

  lemma PrefixSnoc<T>(s: seq<T>, n: nat) returns (next: seq<T>)
    requires n < |s|
    ensures next == s[..n] + [s[n]] == s[..n + 1]
  {
    next := s[..n + 1];
  }

  ghost predicate Mentioned(rows: seq<Row>, id: nat) {
    exists n :: 0 <= n < |rows| && rows[n].streamId == id
  }

  /** What one more row adds. */
  lemma NamedNext(rows: seq<Row>, r: Row)
    ensures forall id: nat :: Mentioned(rows + [r], id) <==> Mentioned(rows, id) || id == r.streamId
    ensures forall id: nat, primary: bool {:trigger Named(rows + [r], id, primary)} ::
              Named(rows + [r], id, primary) ==
              if id == r.streamId && primary == r.primary then Named(rows, id, primary) + RowServers(r)
              else Named(rows, id, primary)
  {
    var all := rows + [r];
    assert all[..|rows|] == rows;
    forall id: nat ensures Mentioned(all, id) <==> Mentioned(rows, id) || id == r.streamId {
      if Mentioned(rows, id) {
        var n :| 0 <= n < |rows| && rows[n].streamId == id;
        assert all[n] == rows[n];
      }
      assert all[|rows|] == r;
    }
  }

  /** After loading every stream is as its rounds ask for. */
  lemma ReadyForRounds(cfg: MonitorConfiguration, rows: seq<Row>, id: nat)
    requires cfg.StreamsLoaded(rows) && id in cfg.streamsInfos
    ensures cfg.streamsInfos[id].streamId == id && cfg.streamsInfos[id].LoadedAs(rows)
  {
    assert cfg.InfosAt(rows, id);
    cfg.streamsInfos[id].LoadedLists(rows);
  }

  /** After loading no round can miss a connection for a server of either wing. */
  lemma RoundHasConnections(cfg: MonitorConfiguration, rows: seq<Row>, id: nat, i: nat)
    requires cfg.Loaded(rows) && id in cfg.streamsInfos && i < 2 && cfg.streamsInfos[id].Shaped()
    ensures ListsIn(cfg.streamsInfos[id].servers[i], cfg.connections)
  {
    var lists := cfg.streamsInfos[id].servers[i];
    forall j, k | 0 <= j < |lists| && 0 <= k < |lists[j]| ensures KeyOf(lists[j][k]) in cfg.connections {
      var key := KeyOf(lists[j][k]);
      cfg.IndexAgrees(rows, key);
      assert cfg.InLists(id, i, j, key);
    }
  }

  /** A stream that no row names has no servers. */
  lemma {:induction false} NotNamed(rows: seq<Row>, id: nat)
    requires !Mentioned(rows, id)
    ensures Named(rows, id, true) == [] && Named(rows, id, false) == []
  {
    if rows != [] {
      assert rows[|rows| - 1].streamId != id;
      NotNamed(rows[..|rows| - 1], id);
    }
  }

  lemma RowsHaveKeySnoc(rows: seq<Row>, r: Row, key: Key)
    ensures RowsHaveKey(rows + [r], key) <==> RowsHaveKey(rows, key) || key in RowKeys(r)
  {
    var all := rows + [r];
    if RowsHaveKey(rows, key) {
      var n :| 0 <= n < |rows| && RowHasKey(rows[n], key);
      assert all[n] == rows[n];
    }
    if key in RowKeys(r) {
      var k :| 0 <= k < |RowKeys(r)| && RowKeys(r)[k] == key;
      assert KeyOf(RowServers(r)[k]) == key;
      assert RowHasKey(all[|rows|], key);
    }
    if RowsHaveKey(all, key) {
      var n :| 0 <= n < |all| && RowHasKey(all[n], key);
      if n == |rows| {
        var k :| 0 <= k < |RowServers(r)| && KeyOf(RowServers(r)[k]) == key;
        assert RowKeys(r)[k] == key;
      } else {
        assert RowHasKey(rows[n], key);
      }
    }
  }

  lemma StreamOfKey(rows: seq<Row>, id: nat, primary: bool, j: nat, key: Key)
    requires ListHasKey(ServerList(rows, id, primary, j), key)
    ensures Mentioned(rows, id)
  {
    KeysOfList(rows, id, primary, j, key);
  }
}
