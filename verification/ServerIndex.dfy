/** The lists of servers that the rows of the stream list give, and the keys of their connections. */
module ServerIndex {
  import opened Basics
  import opened StatusMerge

  datatype Kind = StreamDup | MasterBox | StreamerRtmp | StreamerHls | OtherKind

  datatype Server = Server(
    host: string, adminPort: nat, protocol: string, port: nat, kind: Kind, status: Status, leaf: bool)

  datatype Key = Key(host: string, port: nat)

  /** A row of the stream list, with its fields already typed. */
  datatype Row = Row(
    streamId: nat, primary: bool,
    dupHost: string, dupMode: string, dupProtocol: string, dupPort: nat,
    boxHost: string, boxPort: nat, boxLeaf: bool,
    streamerHost: Option<string>)

  const DUP_PORT := 1111
  const BOX_PORT := 2222
  const RTMP_PORT := 3333
  const HLS_PORT := 4444

  /** Two servers are the same when host and port are, whatever else differs. */
  predicate Same(s: Server, t: Server) {
    s.host == t.host && s.port == t.port
  }

  function KeyOf(s: Server): Key {
    Key(s.host, s.adminPort)
  }

  // ------------------------------------------------------------------ the lists of servers

  ghost predicate HasSame(list: seq<Server>, s: Server) {
    exists k :: 0 <= k < |list| && Same(list[k], s)
  }

  /** A list with one more server, unless it is there. */
  ghost function Added(list: seq<Server>, s: Server): seq<Server> {
    if HasSame(list, s) then list else list + [s]
  }

  ghost predicate NoSame(list: seq<Server>) {
    forall a, b :: 0 <= a < b < |list| ==> !Same(list[a], list[b])
  }

  /** In which of the three lists of a wing a kind of server goes; none for the unknown kind. */
  function ListOf(kind: Kind): int {
    match kind
    case StreamDup => 0
    case MasterBox => 1
    case StreamerRtmp => 2
    case StreamerHls => 2
    case OtherKind => -1
  }

  function DupOf(r: Row): Server {
    Server(r.dupHost, DUP_PORT, r.dupMode + " " + r.dupProtocol, r.dupPort, StreamDup, UNKNOWN, false)
  }

  function BoxOf(r: Row): Server {
    Server(r.boxHost, BOX_PORT, "tcp", r.boxPort, MasterBox, UNKNOWN, r.boxLeaf)
  }

  function RtmpOf(host: string): Server {
    Server(host, RTMP_PORT, "flv/tcp", 1936, StreamerRtmp, UNKNOWN, false)
  }

  function HlsOf(host: string): Server {
    Server(host, HLS_PORT, "http", 80, StreamerHls, UNKNOWN, false)
  }

  /** The servers of a row, in the order in which they are added. */
  function RowServers(r: Row): seq<Server> {
    [DupOf(r), BoxOf(r)]
    + (if r.streamerHost.None? then [] else [RtmpOf(r.streamerHost.value), HlsOf(r.streamerHost.value)])
  }

  /** The keys of the connections prepared for a row. */
  function RowKeys(r: Row): (keys: seq<Key>)
    ensures |keys| == |RowServers(r)| && forall k :: 0 <= k < |keys| ==> keys[k] == KeyOf(RowServers(r)[k])
  {
    [Key(r.dupHost, DUP_PORT), Key(r.boxHost, BOX_PORT)]
    + (if r.streamerHost.None? then [] else [Key(r.streamerHost.value, RTMP_PORT), Key(r.streamerHost.value, HLS_PORT)])
  }

  /** All servers named by the rows for one stream and one wing, in order. */
  ghost function Named(rows: seq<Row>, id: nat, primary: bool): seq<Server> {
    if rows == [] then []
    else
      var r := rows[|rows| - 1];
      Named(rows[..|rows| - 1], id, primary) + (if r.streamId == id && r.primary == primary then RowServers(r) else [])
  }

  /** List `j` after adding servers one after the other to an empty list. */
  ghost function Collected(servers: seq<Server>, j: int): seq<Server> {
    if servers == [] then []
    else
      var s := servers[|servers| - 1];
      var before := Collected(servers[..|servers| - 1], j);
      if ListOf(s.kind) == j then Added(before, s) else before
  }

  /** `servers[k]` goes to list `j` and no earlier one of that list is the same. */
  ghost predicate FirstOfAll(servers: seq<Server>, j: int, k: nat)
    requires k < |servers|
  {
    && ListOf(servers[k].kind) == j
    && forall i :: 0 <= i < k && ListOf(servers[i].kind) == j ==> !Same(servers[i], servers[k])
  }

  /** Of the first `n` servers those of list `j` that are not the same as an earlier one, in order. */
  ghost function Firsts(servers: seq<Server>, j: int, n: nat): seq<Server>
    requires n <= |servers|
  {
    if n == 0 then [] else Firsts(servers, j, n - 1) + (if FirstOfAll(servers, j, n - 1) then [servers[n - 1]] else [])
  }

  /** A list keeps the first of several same servers, in the order in which they came, and no other. */
  lemma {:induction false} CollectedAreFirsts(servers: seq<Server>, j: int, n: nat)
    requires n <= |servers|
    ensures Collected(servers[..n], j) == Firsts(servers, j, n)
    ensures NoSame(Collected(servers[..n], j))
    ensures forall s :: HasSame(Collected(servers[..n], j), s) <==>
              exists i :: 0 <= i < n && ListOf(servers[i].kind) == j && Same(servers[i], s)
  {
    if n > 0 {
      CollectedAreFirsts(servers, j, n - 1);
      assert servers[..n][..n - 1] == servers[..n - 1];
      var before, x := Collected(servers[..n - 1], j), servers[n - 1];
      HasSameSnoc(before, x);
      assert FirstOfAll(servers, j, n - 1) <==> ListOf(x.kind) == j && !HasSame(before, x);
    } else {
      assert servers[..0] == [];
    }
  }

  lemma HasSameSnoc(list: seq<Server>, x: Server)
    ensures forall s :: HasSame(list + [x], s) <==> HasSame(list, s) || Same(x, s)
  {
    forall s ensures HasSame(list + [x], s) <==> HasSame(list, s) || Same(x, s) {
      if HasSame(list, s) {
        var k :| 0 <= k < |list| && Same(list[k], s);
        assert (list + [x])[k] == list[k];
      }
      assert (list + [x])[|list|] == x;
    }
  }

  // ------------------------------------------------------------------ the keys of the connections

  ghost predicate RowHasKey(r: Row, key: Key) {
    exists k :: 0 <= k < |RowServers(r)| && KeyOf(RowServers(r)[k]) == key
  }

  ghost predicate RowsHaveKey(rows: seq<Row>, key: Key) {
    exists n :: 0 <= n < |rows| && RowHasKey(rows[n], key)
  }

  ghost predicate ListHasKey(list: seq<Server>, key: Key) {
    exists k :: 0 <= k < |list| && KeyOf(list[k]) == key
  }

  /** The admin port of a server made from a row follows from its list and its port. */
  predicate FromRow(s: Server) {
    || (s.kind == StreamDup && s.adminPort == DUP_PORT)
    || (s.kind == MasterBox && s.adminPort == BOX_PORT)
    || (s.kind == StreamerRtmp && s.adminPort == RTMP_PORT && s.port == 1936)
    || (s.kind == StreamerHls && s.adminPort == HLS_PORT && s.port == 80)
  }

  lemma SameKey(s: Server, t: Server)
    requires FromRow(s) && FromRow(t) && ListOf(s.kind) == ListOf(t.kind) && Same(s, t)
    ensures KeyOf(s) == KeyOf(t)
  {
  }

  lemma {:induction false} NamedFromRows(rows: seq<Row>, id: nat, primary: bool)
    ensures forall k :: 0 <= k < |Named(rows, id, primary)| ==> FromRow(Named(rows, id, primary)[k])
  {
    if rows != [] {
      NamedFromRows(rows[..|rows| - 1], id, primary);
    }
  }

  /** The lists hold the keys of the servers that were to be added: a server is dropped only for one with the
      same key. */
  lemma {:induction false} CollectedKeys(servers: seq<Server>, j: int, key: Key)
    requires forall k :: 0 <= k < |servers| ==> FromRow(servers[k])
    ensures forall k :: 0 <= k < |Collected(servers, j)| ==>
              FromRow(Collected(servers, j)[k]) && ListOf(Collected(servers, j)[k].kind) == j
    ensures ListHasKey(Collected(servers, j), key) <==>
              exists k :: 0 <= k < |servers| && ListOf(servers[k].kind) == j && KeyOf(servers[k]) == key
  {
    if servers != [] {
      var init, x := servers[..|servers| - 1], servers[|servers| - 1];
      CollectedKeys(init, j, key);
      var before := Collected(init, j);
      if ListOf(x.kind) == j && HasSame(before, x) {
        var k :| 0 <= k < |before| && Same(before[k], x);
        SameKey(before[k], x);
      }
      KeySnoc(before, x, key);
      KindKeySnoc(init, x, j, key);
      assert servers == init + [x];
    }
  }

  lemma KeySnoc(list: seq<Server>, x: Server, key: Key)
    ensures ListHasKey(list + [x], key) <==> ListHasKey(list, key) || KeyOf(x) == key
  {
    if ListHasKey(list, key) {
      var k :| 0 <= k < |list| && KeyOf(list[k]) == key;
      assert (list + [x])[k] == list[k];
    }
    assert (list + [x])[|list|] == x;
  }

  ghost predicate KindHasKey(servers: seq<Server>, j: int, key: Key) {
    exists k :: 0 <= k < |servers| && ListOf(servers[k].kind) == j && KeyOf(servers[k]) == key
  }

  lemma KindKeySnoc(list: seq<Server>, x: Server, j: int, key: Key)
    ensures KindHasKey(list + [x], j, key) <==> KindHasKey(list, j, key) || (ListOf(x.kind) == j && KeyOf(x) == key)
  {
    if KindHasKey(list, j, key) {
      var k :| 0 <= k < |list| && ListOf(list[k].kind) == j && KeyOf(list[k]) == key;
      assert (list + [x])[k] == list[k];
    }
    assert (list + [x])[|list|] == x;
  }

  lemma KindKeyConcat(a: seq<Server>, b: seq<Server>, j: int, key: Key)
    ensures KindHasKey(a + b, j, key) <==> KindHasKey(a, j, key) || KindHasKey(b, j, key)
  {
    if KindHasKey(a, j, key) {
      var k :| 0 <= k < |a| && ListOf(a[k].kind) == j && KeyOf(a[k]) == key;
      assert (a + b)[k] == a[k];
    }
    if KindHasKey(b, j, key) {
      var k :| 0 <= k < |b| && ListOf(b[k].kind) == j && KeyOf(b[k]) == key;
      assert (a + b)[|a| + k] == b[k];
    }
  }

  lemma {:induction false} NamedKeys(rows: seq<Row>, id: nat, primary: bool, j: int, key: Key)
    ensures KindHasKey(Named(rows, id, primary), j, key) <==>
              exists n :: 0 <= n < |rows| && rows[n].streamId == id && rows[n].primary == primary
                          && KindHasKey(RowServers(rows[n]), j, key)
  {
    if rows != [] {
      var init, r := rows[..|rows| - 1], rows[|rows| - 1];
      NamedKeys(init, id, primary, j, key);
      KindKeyConcat(Named(init, id, primary),
                    if r.streamId == id && r.primary == primary then RowServers(r) else [], j, key);
      if m :|
           0 <= m < |init| && init[m].streamId == id && init[m].primary == primary
           && KindHasKey(RowServers(init[m]), j, key) {
        assert rows[m] == init[m];
      }
      if m :|
           0 <= m < |rows| && rows[m].streamId == id && rows[m].primary == primary
           && KindHasKey(RowServers(rows[m]), j, key) {
        if m < |init| { assert rows[m] == init[m]; }
      }
    }
  }

  ghost function ServerList(rows: seq<Row>, id: nat, primary: bool, j: nat): seq<Server> {
    Collected(Named(rows, id, primary), j)
  }

  /** Index agreement: the keys named by the rows are exactly the keys of the servers in the lists of all
      streams, wings and kinds. */
  lemma KeysAgree(rows: seq<Row>, key: Key)
    ensures RowsHaveKey(rows, key) <==>
              exists id: nat, primary: bool, j: nat :: j < 3 && ListHasKey(ServerList(rows, id, primary, j), key)
  {
    if n :| 0 <= n < |rows| && RowHasKey(rows[n], key) {
      var r := rows[n];
      var k :| 0 <= k < |RowServers(r)| && KeyOf(RowServers(r)[k]) == key;
      var j := ListOf(RowServers(r)[k].kind);
      assert KindHasKey(RowServers(rows[n]), j, key);
      KeysOfList(rows, r.streamId, r.primary, j, key);
      assert ListHasKey(ServerList(rows, r.streamId, r.primary, j), key);
    }
    if id: nat, primary: bool, j: nat :| j < 3 && ListHasKey(ServerList(rows, id, primary, j), key) {
      KeysOfList(rows, id, primary, j, key);
      var n :| 0 <= n < |rows| && rows[n].streamId == id && rows[n].primary == primary
        && KindHasKey(RowServers(rows[n]), j, key);
      assert RowHasKey(rows[n], key);
    }
  }

  lemma KeysOfList(rows: seq<Row>, id: nat, primary: bool, j: nat, key: Key)
    ensures ListHasKey(ServerList(rows, id, primary, j), key) <==>
              exists n :: 0 <= n < |rows| && rows[n].streamId == id && rows[n].primary == primary
                          && KindHasKey(RowServers(rows[n]), j, key)
  {
    NamedFromRows(rows, id, primary);
    CollectedKeys(Named(rows, id, primary), j, key);
    NamedKeys(rows, id, primary, j, key);
  }

  // ------------------------------------------------------------------ in terms of the fields of the rows

  predicate InWing(r: Row, id: nat, primary: bool) {
    r.streamId == id && r.primary == primary
  }

  lemma CollectedMore(servers: seq<Server>, x: Server, j: int)
    ensures Collected(servers + [x], j) ==
            if ListOf(x.kind) == j then Added(Collected(servers, j), x) else Collected(servers, j)
  {
    assert (servers + [x])[..|servers|] == servers;
  }

  /** What one more row does to the lists of a wing. */
  lemma RowCollected(rows: seq<Row>, id: nat, primary: bool)
    requires rows != []
    ensures var init, r := rows[..|rows| - 1], rows[|rows| - 1];
            if InWing(r, id, primary) then
              && ServerList(rows, id, primary, 0) == Added(ServerList(init, id, primary, 0), DupOf(r))
              && ServerList(rows, id, primary, 1) == Added(ServerList(init, id, primary, 1), BoxOf(r))
              && ServerList(rows, id, primary, 2) ==
                 (if r.streamerHost.None? then ServerList(init, id, primary, 2)
                  else Added(Added(ServerList(init, id, primary, 2), RtmpOf(r.streamerHost.value)),
                             HlsOf(r.streamerHost.value)))
            else forall j :: 0 <= j < 3 ==> ServerList(rows, id, primary, j) == ServerList(init, id, primary, j)
  {
    var init, r := rows[..|rows| - 1], rows[|rows| - 1];
    if InWing(r, id, primary) {
      var all := Named(init, id, primary);
      RowCollectedAt(all, r, 0);
      RowCollectedAt(all, r, 1);
      RowCollectedAt(all, r, 2);
    } else {
      assert Named(rows, id, primary) == Named(init, id, primary);
    }
  }

  lemma RowCollectedAt(all: seq<Server>, r: Row, j: nat)
    requires j < 3
    ensures Collected(all + RowServers(r), j) ==
            if j == 0 then Added(Collected(all, 0), DupOf(r))
            else if j == 1 then Added(Collected(all, 1), BoxOf(r))
            else if r.streamerHost.None? then Collected(all, 2)
            else Added(Added(Collected(all, 2), RtmpOf(r.streamerHost.value)), HlsOf(r.streamerHost.value))
  {
    CollectedMore(all, DupOf(r), j);
    CollectedMore(all + [DupOf(r)], BoxOf(r), j);
    var two := all + [DupOf(r)] + [BoxOf(r)];
    if r.streamerHost.None? {
      assert all + RowServers(r) == two;
    } else {
      var h := r.streamerHost.value;
      CollectedMore(two, RtmpOf(h), j);
      CollectedMore(two + [RtmpOf(h)], HlsOf(h), j);
      assert all + RowServers(r) == two + [RtmpOf(h)] + [HlsOf(h)];
    }
  }

  /** List `j` of a wing, row by row. */
  ghost function Listed(rows: seq<Row>, id: nat, primary: bool, j: nat): seq<Server> {
    if rows == [] then []
    else
      var before, r := Listed(rows[..|rows| - 1], id, primary, j), rows[|rows| - 1];
      if !InWing(r, id, primary) then before
      else if j == 0 then Added(before, DupOf(r))
      else if j == 1 then Added(before, BoxOf(r))
      else if r.streamerHost.None? then before
      else Added(Added(before, RtmpOf(r.streamerHost.value)), HlsOf(r.streamerHost.value))
  }

  lemma {:induction false} ListedIs(rows: seq<Row>, id: nat, primary: bool, j: nat)
    requires j < 3
    ensures Listed(rows, id, primary, j) == ServerList(rows, id, primary, j)
  {
    if rows != [] {
      ListedIs(rows[..|rows| - 1], id, primary, j);
      RowCollected(rows, id, primary);
    }
  }

  lemma AddedHas(list: seq<Server>, x: Server, s: Server)
    ensures HasSame(Added(list, x), s) <==> HasSame(list, s) || Same(x, s)
    ensures s in Added(list, x) <==> s in list || (s == x && !HasSame(list, x))
    ensures list <= Added(list, x)
  {
    HasSameSnoc(list, x);
    if HasSame(list, x) && Same(x, s) {
      var k :| 0 <= k < |list| && Same(list[k], x);
      assert Same(list[k], s);
    }
  }

  /** A row of the wing names the host and port of `s`, as a streamdup or as a masterbox. */
  predicate Names(r: Row, id: nat, primary: bool, j: nat, s: Server) {
    && InWing(r, id, primary)
    && (if j == 0 then r.dupHost == s.host && r.dupPort == s.port else r.boxHost == s.host && r.boxPort == s.port)
  }

  ghost predicate SomeNames(rows: seq<Row>, id: nat, primary: bool, j: nat, s: Server) {
    exists n :: 0 <= n < |rows| && Names(rows[n], id, primary, j, s)
  }

  lemma SomeNamesSnoc(rows: seq<Row>, id: nat, primary: bool, j: nat, s: Server)
    requires rows != []
    ensures SomeNames(rows, id, primary, j, s) <==>
              SomeNames(rows[..|rows| - 1], id, primary, j, s) || Names(rows[|rows| - 1], id, primary, j, s)
  {
    var init := rows[..|rows| - 1];
    if n :| 0 <= n < |init| && Names(init[n], id, primary, j, s) { assert rows[n] == init[n]; }
    if n :| 0 <= n < |rows| && Names(rows[n], id, primary, j, s) {
      if n < |init| { assert init[n] == rows[n]; }
    }
  }

  /** Whatever host and port a row of the wing names for a streamdup or a masterbox is in the list, and no other. */
  lemma {:induction false} ListNames(rows: seq<Row>, id: nat, primary: bool, j: nat, s: Server)
    requires j < 2
    ensures HasSame(Listed(rows, id, primary, j), s) <==> SomeNames(rows, id, primary, j, s)
  {
    if rows != [] {
      var init, r := rows[..|rows| - 1], rows[|rows| - 1];
      ListNames(init, id, primary, j, s);
      SomeNamesSnoc(rows, id, primary, j, s);
      AddedHas(Listed(init, id, primary, j), if j == 0 then DupOf(r) else BoxOf(r), s);
    }
  }

  /** Row `n` gives `s` to list `j`, and no earlier row of the wing names its host and port there. */
  ghost predicate FirstGives(rows: seq<Row>, id: nat, primary: bool, j: nat, s: Server, n: nat)
    requires n < |rows|
  {
    && InWing(rows[n], id, primary) && s == (if j == 0 then DupOf(rows[n]) else BoxOf(rows[n]))
    && !SomeNames(rows[..n], id, primary, j, s)
  }

  ghost predicate SomeFirst(rows: seq<Row>, id: nat, primary: bool, j: nat, s: Server) {
    exists n :: 0 <= n < |rows| && FirstGives(rows, id, primary, j, s, n)
  }

  lemma SomeFirstSnoc(rows: seq<Row>, id: nat, primary: bool, j: nat, s: Server)
    requires rows != []
    ensures var init := rows[..|rows| - 1];
            SomeFirst(rows, id, primary, j, s) <==>
              SomeFirst(init, id, primary, j, s) || FirstGives(rows, id, primary, j, s, |init|)
  {
    var init := rows[..|rows| - 1];
    forall n {:trigger FirstGives(rows, id, primary, j, s, n)} {:trigger FirstGives(init, id, primary, j, s, n)}
      | 0 <= n < |init|
      ensures FirstGives(rows, id, primary, j, s, n) <==> FirstGives(init, id, primary, j, s, n)
    {
      assert rows[n] == init[n] && rows[..n] == init[..n];
    }
  }

  lemma {:induction false} FirstsListed(rows: seq<Row>, id: nat, primary: bool, j: nat, s: Server)
    requires j < 2
    ensures s in Listed(rows, id, primary, j) <==> SomeFirst(rows, id, primary, j, s)
  {
    if rows != [] {
      var init, r := rows[..|rows| - 1], rows[|rows| - 1];
      FirstsListed(init, id, primary, j, s);
      ListNames(init, id, primary, j, s);
      SomeFirstSnoc(rows, id, primary, j, s);
      AddedHas(Listed(init, id, primary, j), if j == 0 then DupOf(r) else BoxOf(r), s);
    }
  }

  lemma EarlierNames(rows: seq<Row>, id: nat, primary: bool, j: nat, s: Server, n: nat)
    requires n <= |rows|
    ensures SomeNames(rows[..n], id, primary, j, s) <==> exists m :: 0 <= m < n && Names(rows[m], id, primary, j, s)
  {
    if m :| 0 <= m < n && Names(rows[m], id, primary, j, s) { assert rows[..n][m] == rows[m]; }
  }

  /** The streamdups of a wing: for each host and port named by its rows the one of the first row that names it. */
  lemma ListedDups(rows: seq<Row>, id: nat, primary: bool, s: Server)
    ensures s in ServerList(rows, id, primary, 0) <==>
            exists n :: 0 <= n < |rows| && rows[n].streamId == id && rows[n].primary == primary
              && s == Server(rows[n].dupHost, 1111, rows[n].dupMode + " " + rows[n].dupProtocol, rows[n].dupPort,
                             StreamDup, UNKNOWN, false)
              && forall m :: 0 <= m < n && rows[m].streamId == id && rows[m].primary == primary ==>
                   rows[m].dupHost != s.host || rows[m].dupPort != s.port
  {
    ListedIs(rows, id, primary, 0);
    FirstsListed(rows, id, primary, 0, s);
    if n :| 0 <= n < |rows| && FirstGives(rows, id, primary, 0, s, n) {
      EarlierNames(rows, id, primary, 0, s, n);
      forall m | 0 <= m < n && rows[m].streamId == id && rows[m].primary == primary
        ensures rows[m].dupHost != s.host || rows[m].dupPort != s.port
      {
        assert !Names(rows[m], id, primary, 0, s);
      }
    }
    if n :|
         0 <= n < |rows| && rows[n].streamId == id && rows[n].primary == primary && s == DupOf(rows[n])
         && forall m :: 0 <= m < n && rows[m].streamId == id && rows[m].primary == primary ==>
              rows[m].dupHost != s.host || rows[m].dupPort != s.port
    {
      EarlierNames(rows, id, primary, 0, s, n);
      assert FirstGives(rows, id, primary, 0, s, n);
    }
  }

  /** The masterboxes of a wing, likewise. */
  lemma ListedBoxes(rows: seq<Row>, id: nat, primary: bool, s: Server)
    ensures s in ServerList(rows, id, primary, 1) <==>
            exists n :: 0 <= n < |rows| && rows[n].streamId == id && rows[n].primary == primary
              && s == Server(rows[n].boxHost, 2222, "tcp", rows[n].boxPort, MasterBox, UNKNOWN, rows[n].boxLeaf)
              && forall m :: 0 <= m < n && rows[m].streamId == id && rows[m].primary == primary ==>
                   rows[m].boxHost != s.host || rows[m].boxPort != s.port
  {
    ListedIs(rows, id, primary, 1);
    FirstsListed(rows, id, primary, 1, s);
    if n :| 0 <= n < |rows| && FirstGives(rows, id, primary, 1, s, n) {
      EarlierNames(rows, id, primary, 1, s, n);
      forall m | 0 <= m < n && rows[m].streamId == id && rows[m].primary == primary
        ensures rows[m].boxHost != s.host || rows[m].boxPort != s.port
      {
        assert !Names(rows[m], id, primary, 1, s);
      }
    }
    if n :|
         0 <= n < |rows| && rows[n].streamId == id && rows[n].primary == primary && s == BoxOf(rows[n])
         && forall m :: 0 <= m < n && rows[m].streamId == id && rows[m].primary == primary ==>
              rows[m].boxHost != s.host || rows[m].boxPort != s.port
    {
      EarlierNames(rows, id, primary, 1, s, n);
      assert FirstGives(rows, id, primary, 1, s, n);
    }
  }

  ghost predicate NamesStreamer(rows: seq<Row>, id: nat, primary: bool, host: string) {
    exists n :: 0 <= n < |rows| && InWing(rows[n], id, primary) && rows[n].streamerHost == Some(host)
  }

  lemma NamesStreamerSnoc(rows: seq<Row>, id: nat, primary: bool, host: string)
    requires rows != []
    ensures var init, r := rows[..|rows| - 1], rows[|rows| - 1];
            NamesStreamer(rows, id, primary, host) <==>
              NamesStreamer(init, id, primary, host) || (InWing(r, id, primary) && r.streamerHost == Some(host))
  {
    var init := rows[..|rows| - 1];
    if n :| 0 <= n < |init| && InWing(init[n], id, primary) && init[n].streamerHost == Some(host) {
      assert rows[n] == init[n];
    }
    if n :| 0 <= n < |rows| && InWing(rows[n], id, primary) && rows[n].streamerHost == Some(host) {
      if n < |init| { assert init[n] == rows[n]; }
    }
  }

  lemma {:induction false} StreamersHave(rows: seq<Row>, id: nat, primary: bool, s: Server)
    ensures HasSame(Listed(rows, id, primary, 2), s) <==>
              NamesStreamer(rows, id, primary, s.host) && (s.port == 1936 || s.port == 80)
  {
    if rows != [] {
      var init, r := rows[..|rows| - 1], rows[|rows| - 1];
      StreamersHave(init, id, primary, s);
      NamesStreamerSnoc(rows, id, primary, s.host);
      if InWing(r, id, primary) && r.streamerHost.Some? {
        var list, x := Listed(init, id, primary, 2), RtmpOf(r.streamerHost.value);
        AddedHas(list, x, s);
        AddedHas(Added(list, x), HlsOf(r.streamerHost.value), s);
      }
    }
  }

  /** A row adds both streamers of its host, or none if they are there. */
  lemma StreamersAdded(rows: seq<Row>, id: nat, primary: bool)
    requires rows != []
    ensures var init, r := rows[..|rows| - 1], rows[|rows| - 1];
            Listed(rows, id, primary, 2) ==
            if !InWing(r, id, primary) || r.streamerHost.None? || NamesStreamer(init, id, primary, r.streamerHost.value)
            then Listed(init, id, primary, 2)
            else Listed(init, id, primary, 2) + [RtmpOf(r.streamerHost.value), HlsOf(r.streamerHost.value)]
  {
    var init, r := rows[..|rows| - 1], rows[|rows| - 1];
    if InWing(r, id, primary) && r.streamerHost.Some? {
      var list, x, y := Listed(init, id, primary, 2), RtmpOf(r.streamerHost.value), HlsOf(r.streamerHost.value);
      StreamersHave(init, id, primary, x);
      StreamersHave(init, id, primary, y);
      AddedHas(list, x, y);
      assert list + [x] + [y] == list + [x, y];
    }
  }

  lemma {:induction false} StreamersListed(rows: seq<Row>, id: nat, primary: bool, s: Server)
    ensures s in Listed(rows, id, primary, 2) <==>
              NamesStreamer(rows, id, primary, s.host) && (s == RtmpOf(s.host) || s == HlsOf(s.host))
  {
    if rows != [] {
      StreamersListed(rows[..|rows| - 1], id, primary, s);
      NamesStreamerSnoc(rows, id, primary, s.host);
      StreamersAdded(rows, id, primary);
    }
  }

  /** The streamers of a wing: two for each host named by its rows, one of each kind. */
  lemma ListedStreamers(rows: seq<Row>, id: nat, primary: bool, s: Server)
    ensures s in ServerList(rows, id, primary, 2) <==>
            (exists n :: 0 <= n < |rows| && rows[n].streamId == id && rows[n].primary == primary
               && rows[n].streamerHost == Some(s.host))
            && (s == Server(s.host, 3333, "flv/tcp", 1936, StreamerRtmp, UNKNOWN, false)
                || s == Server(s.host, 4444, "http", 80, StreamerHls, UNKNOWN, false))
  {
    ListedIs(rows, id, primary, 2);
    StreamersListed(rows, id, primary, s);
    assert NamesStreamer(rows, id, primary, s.host) <==>
           exists n :: 0 <= n < |rows| && rows[n].streamId == id && rows[n].primary == primary
             && rows[n].streamerHost == Some(s.host);
  }

  /** The lists follow the order of the rows: what the first rows give stands in front. */
  lemma ListsGrow(rows: seq<Row>, id: nat, primary: bool, j: nat, n: nat)
    requires j < 3 && n <= |rows|
    ensures ServerList(rows[..n], id, primary, j) <= ServerList(rows, id, primary, j)
  {
    ListedIs(rows[..n], id, primary, j);
    ListedIs(rows, id, primary, j);
    ListedGrows(rows, id, primary, j, n);
  }

  lemma {:induction false} ListedGrows(rows: seq<Row>, id: nat, primary: bool, j: nat, n: nat)
    requires j < 3 && n <= |rows|
    ensures Listed(rows[..n], id, primary, j) <= Listed(rows, id, primary, j)
  {
    if n == |rows| {
      assert rows[..n] == rows;
    } else {
      var init := rows[..|rows| - 1];
      ListedGrows(init, id, primary, j, n);
      assert init[..n] == rows[..n];
      RowGrows(rows, id, primary, j);
      PrefixOfPrefix(Listed(rows[..n], id, primary, j), Listed(init, id, primary, j),
                     Listed(rows, id, primary, j));
    }
  }

  lemma RowGrows(rows: seq<Row>, id: nat, primary: bool, j: nat)
    requires j < 3 && rows != []
    ensures Listed(rows[..|rows| - 1], id, primary, j) <= Listed(rows, id, primary, j)
  {
    var init, r := rows[..|rows| - 1], rows[|rows| - 1];
    if j == 2 {
      StreamersAdded(rows, id, primary);
    } else {
      AddedHas(Listed(init, id, primary, j), if j == 0 then DupOf(r) else BoxOf(r), DupOf(r));
    }
  }

  lemma PrefixOfPrefix<T>(a: seq<T>, b: seq<T>, c: seq<T>)
    requires a <= b && b <= c
    ensures a <= c
  {
  }

  /** Of the two streamers of a host the RTMP streamer stands just before the HLS streamer. */
  lemma StreamersPaired(rows: seq<Row>, id: nat, primary: bool, k: nat)
    requires 2 * k < |ServerList(rows, id, primary, 2)|
    ensures var list := ServerList(rows, id, primary, 2);
            && 2 * k + 1 < |list| && list[2 * k].kind == StreamerRtmp && list[2 * k + 1].kind == StreamerHls
            && list[2 * k].host == list[2 * k + 1].host
  {
    ListedIs(rows, id, primary, 2);
    ListedPairs(rows, id, primary);
    assert PairAt(Listed(rows, id, primary, 2), k);
  }

  ghost predicate PairAt(list: seq<Server>, k: nat) {
    && 2 * k + 1 < |list| && list[2 * k].kind == StreamerRtmp && list[2 * k + 1].kind == StreamerHls
    && list[2 * k].host == list[2 * k + 1].host
  }

  ghost predicate AllPairs(list: seq<Server>) {
    |list| % 2 == 0 && forall k {:trigger PairAt(list, k)} :: 0 <= 2 * k < |list| ==> PairAt(list, k)
  }

  lemma PairsSnoc(list: seq<Server>, x: Server, y: Server)
    requires AllPairs(list) && x.kind == StreamerRtmp && y.kind == StreamerHls && x.host == y.host
    ensures AllPairs(list + [x, y])
  {
    var more := list + [x, y];
    forall k | 0 <= 2 * k < |more| ensures PairAt(more, k) {
      if 2 * k < |list| { assert PairAt(list, k); }
    }
  }

  lemma {:induction false} ListedPairs(rows: seq<Row>, id: nat, primary: bool)
    ensures AllPairs(Listed(rows, id, primary, 2))
  {
    if rows != [] {
      var init, r := rows[..|rows| - 1], rows[|rows| - 1];
      ListedPairs(init, id, primary);
      StreamersAdded(rows, id, primary);
      if r.streamerHost.Some? {
        PairsSnoc(Listed(init, id, primary, 2), RtmpOf(r.streamerHost.value), HlsOf(r.streamerHost.value));
      }
    }
  }

  /** The keys of connections, by the fields of the rows. */
  lemma KeysNamed(rows: seq<Row>, key: Key)
    ensures RowsHaveKey(rows, key) <==>
            exists n :: 0 <= n < |rows|
              && (key == Key(rows[n].dupHost, 1111) || key == Key(rows[n].boxHost, 2222)
                  || (rows[n].streamerHost.Some?
                      && (key == Key(rows[n].streamerHost.value, 3333)
                          || key == Key(rows[n].streamerHost.value, 4444))))
  {
    forall n {:trigger rows[n]} | 0 <= n < |rows|
      ensures RowHasKey(rows[n], key) <==>
                || key == Key(rows[n].dupHost, 1111) || key == Key(rows[n].boxHost, 2222)
                || (rows[n].streamerHost.Some?
                    && (key == Key(rows[n].streamerHost.value, 3333) || key == Key(rows[n].streamerHost.value, 4444)))
    {
      RowKeysNamed(rows[n], key);
    }
    if RowsHaveKey(rows, key) {
      var n :| 0 <= n < |rows| && RowHasKey(rows[n], key);
      RowKeysNamed(rows[n], key);
    }
  }

  lemma RowKeysNamed(r: Row, key: Key)
    ensures RowHasKey(r, key) <==>
              || key == Key(r.dupHost, 1111) || key == Key(r.boxHost, 2222)
              || (r.streamerHost.Some?
                  && (key == Key(r.streamerHost.value, 3333) || key == Key(r.streamerHost.value, 4444)))
  {
    var s := RowServers(r);
    assert KeyOf(s[0]) == Key(r.dupHost, 1111) && KeyOf(s[1]) == Key(r.boxHost, 2222);
    if r.streamerHost.Some? {
      var h := r.streamerHost.value;
      assert KeyOf(s[2]) == Key(h, 3333) && KeyOf(s[3]) == Key(h, 4444);
    }
  }
}
