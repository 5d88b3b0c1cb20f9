/** The plugin's HTTP handlers (main.go): the proxy entry point
    `HttpProxy_`, which turns an HTTP request into a proxied request for a
    registered downstream platform, the local stream list `filterStreams`,
    and `API_streamlist`, which answers locally or asks a downstream
    platform. `url.Values.Encode` and `url.QueryUnescape` are foreign calls
    and arrive as parameters; the request's parsed query is an input. */
module HttpApi {
  import opened Base
  import opened Envelopes
  import opened Hub

  // ---------------------------------------------------------------------
  // HttpProxy_

  /** The parts of the incoming `*http.Request` the handler reads: the
      parsed query, the method, the two whitelisted headers (as
      `Header.Get` returns them), `ContentLength`, and the outcome of
      reading the body (consulted only when `ContentLength > 0`). */
  datatype IncomingRequest = IncomingRequest(
    query: Params, httpMethod: string, contentType: string, setCookie: string,
    contentLength: int, body: Option<Bytes>)

  datatype ProxyRefusal = InvalidCid | InvalidHttpPath | UnescapeFailed

  /** What the caller of the handler sees: an API error, nothing at all
      (the body could not be read, or the tunnel call failed and is only
      logged), or the downstream response body. */
  datatype ProxyReply = Rejected(why: ProxyRefusal) | BodyUnread | Failed(error: ProxyError) | Replied(body: Bytes)

  /** The hub after the handler, the request handed to the tunnel (if any),
      and the reply. */
  datatype Handled = Handled(hub: Hub, forwarded: Option<ProxyMessage>, reply: ProxyReply)

  /** The query after `Del("cid")` and `Del("httpPath")`: every other key
      is forwarded with all of its values. */
  function Remaining(q: Params): (rest: Params)
    ensures "cid" !in rest && "httpPath" !in rest
    ensures forall k :: k in q && k != "cid" && k != "httpPath" ==> k in rest && rest[k] == q[k]
    ensures rest.Keys <= q.Keys
  {
    q - {"cid", "httpPath"}
  }

  /** Appending the re-encoded query to `httpPath`: nothing when it is
      empty, otherwise after `&` if the path already has a query and after
      `?` if it does not. */
  function JoinQuery(path: string, query: string): (u: string)
    ensures query == "" ==> u == path
    ensures query != "" ==> HasPrefix(u, path) && |u| == |path| + 1 + |query| && u[|path| + 1..] == query
    ensures query != "" ==> (u[|path|] == '&' <==> Contains(path, "?"))
    ensures query != "" ==> (u[|path|] == '?' <==> !Contains(path, "?"))
  {
    if query == "" then path
    else
      var u := path + (if Contains(path, "?") then "&" else "?") + query;
      assert u[..|path|] == path;
      u
  }

  /** A one-character string occurs exactly where its character does. */
  lemma ContainsChar(s: string, c: char)
    ensures Contains(s, [c]) <==> c in s
  {
    if c in s {
      var i :| 0 <= i < |s| && s[i] == c;
      assert s[i..i + 1] == [c];
      assert OccursAt(s, [c], i);
    }
    if Contains(s, [c]) {
      var i :| 0 <= i <= |s| - 1 && OccursAt(s, [c], i);
      assert s[i..i + 1][0] == c;
    }
  }

  /** A path without a query gets the forwarded parameters as its whole
      query string. */
  lemma JoinQueryNewQuery(path: string, query: string)
    requires '?' !in path && '?' !in query && query != ""
    ensures QueryPart(JoinQuery(path, query)) == query
  {
    ContainsChar(path, '?');
    assert JoinQuery(path, query) == path + "?" + query + "";
    QueryPartOf(path, query, "");
  }

  /** A path that already carries a query keeps it, and the forwarded
      parameters follow it after `&`. */
  lemma JoinQueryExtends(p: string, t: string, query: string)
    requires '?' !in p && '?' !in t && '?' !in query && query != ""
    ensures QueryPart(JoinQuery(p + "?" + t, query)) == t + "&" + query
  {
    ContainsInfix(p, "?", t);
    var u := JoinQuery(p + "?" + t, query);
    assert u == p + "?" + (t + "&" + query) + "";
    assert '?' !in t + "&" + query;
    QueryPartOf(p, t + "&" + query, "");
  }

  /** The URL handed to `url.QueryUnescape`. */
  function ProxyTarget(q: Params, encode: Params -> string): string
  {
    JoinQuery(QueryGet(q, "httpPath"), encode(Remaining(q)))
  }

  /** The whitelisted request headers: `Content-Type` and `Set-Cookie`,
      each copied only when the incoming request has a non-empty value. */
  function ForwardHeaders(contentType: string, setCookie: string): (hd: Params)
    ensures forall k :: k in hd ==> k == "Content-Type" || k == "Set-Cookie"
    ensures "Content-Type" in hd <==> contentType != ""
    ensures "Content-Type" in hd ==> hd["Content-Type"] == [contentType]
    ensures "Set-Cookie" in hd <==> setCookie != ""
    ensures "Set-Cookie" in hd ==> hd["Set-Cookie"] == [setCookie]
  {
    var withType: Params := if contentType != "" then map["Content-Type" := [contentType]] else map[];
    if setCookie != "" then withType["Set-Cookie" := [setCookie]] else withType
  }

  /** `HttpProxy_`. `encode` is `url.Values.Encode`, `codec.unescape` is
      `url.QueryUnescape`; `writeOk` and `arrivals` are the tunnel call's
      inputs, as in `TransWsProxyMessage`. */
  function HttpProxy(h: Hub, json: Json, encode: Params -> string, codec: UrlCodec, r: IncomingRequest,
                     writeOk: bool, arrivals: seq<Envelope>): (out: Handled)
    ensures out.reply == Rejected(InvalidCid) <==> QueryGet(r.query, "cid") == ""
    ensures out.reply == Rejected(InvalidHttpPath) <==> QueryGet(r.query, "cid") != "" && QueryGet(r.query, "httpPath") == ""
    ensures out.reply == Rejected(UnescapeFailed) <==>
      && QueryGet(r.query, "cid") != "" && QueryGet(r.query, "httpPath") != ""
      && codec.unescape(ProxyTarget(r.query, encode)).None?
    ensures out.reply == BodyUnread <==> !out.reply.Rejected? && r.contentLength > 0 && r.body.None?
    ensures out.forwarded.None? <==> out.reply.Rejected? || out.reply == BodyUnread
    ensures out.forwarded.None? ==> out.hub == h
    ensures out.forwarded.Some? ==>
      && out.forwarded.value.url == codec.unescape(ProxyTarget(r.query, encode)).value
      && out.forwarded.value.httpMethod == r.httpMethod
      && out.forwarded.value.header == ForwardHeaders(r.contentType, r.setCookie)
      && out.forwarded.value.body == (if r.contentLength > 0 then r.body.value else [])
    ensures out.forwarded.Some? ==>
      var c := TransWsProxyMessage(h, QueryGet(r.query, "cid"), out.forwarded.value, json, writeOk, arrivals);
      && out.hub == c.hub
      && (c.result.Ok? ==> out.reply == Replied(c.result.value))
      && (c.result.Err? ==> out.reply == Failed(c.result.error))
  {
    var cid := QueryGet(r.query, "cid");
    var httpPath := QueryGet(r.query, "httpPath");
    if cid == "" then Handled(h, None, Rejected(InvalidCid))
    else if httpPath == "" then Handled(h, None, Rejected(InvalidHttpPath))
    else match codec.unescape(ProxyTarget(r.query, encode))
      case None => Handled(h, None, Rejected(UnescapeFailed))
      case Some(decoded) =>
        if r.contentLength > 0 && r.body.None? then Handled(h, None, BodyUnread)
        else
          var body := if r.contentLength > 0 then r.body.value else [];
          var req := ProxyMessage(decoded, ForwardHeaders(r.contentType, r.setCookie), r.httpMethod, body);
          var c := TransWsProxyMessage(h, cid, req, json, writeOk, arrivals);
          match c.result
          case Ok(rsp) => Handled(c.hub, Some(req), Replied(rsp))
          case Err(e) => Handled(c.hub, Some(req), Failed(e))
  }

  /** A request the handler refuses or abandons reaches no client: the
      registry and the sequence counter are untouched. */
  lemma RefusedRequestSendsNothing(h: Hub, json: Json, encode: Params -> string, codec: UrlCodec,
                                   r: IncomingRequest, writeOk: bool, arrivals: seq<Envelope>)
    requires QueryGet(r.query, "cid") == "" || QueryGet(r.query, "httpPath") == ""
    ensures HttpProxy(h, json, encode, codec, r, writeOk, arrivals).hub == h
    ensures HttpProxy(h, json, encode, codec, r, writeOk, arrivals).reply.Rejected?
  {
  }

  // ---------------------------------------------------------------------
  // filterStreams

  datatype CascadingStream = CascadingStream(source: string, streamPath: string)

  /** The stream paths of a plugin's `PullOnStart` and `PullOnSub` maps, in
      the order the map iteration yields them. */
  datatype PullConfig = PullConfig(onStart: seq<string>, onSub: seq<string>)

  /** A plugin, in the order the iteration over `Plugins` yields it;
      `pull` is `None` when its config is not a `config.PullConfig`. */
  datatype Plugin = Plugin(name: string, pull: Option<PullConfig>)

  const ApiSource: string := "api"

  /** Some entry lists `path`. */
  predicate Listed(ss: seq<CascadingStream>, path: string)
  {
    exists i | 0 <= i < |ss| :: ss[i].streamPath == path
  }

  lemma ListedPrefix(a: seq<CascadingStream>, b: seq<CascadingStream>, path: string)
    requires Listed(a, path)
    ensures Listed(a + b, path)
  {
    var i :| 0 <= i < |a| && a[i].streamPath == path;
    assert (a + b)[i] == a[i];
  }

  /** One entry per path, all with the same source. */
  function Entries(source: string, paths: seq<string>): (ss: seq<CascadingStream>)
    ensures |ss| == |paths|
    ensures forall i :: 0 <= i < |ss| ==> ss[i] == CascadingStream(source, paths[i])
  {
    seq(|paths|, i requires 0 <= i < |paths| => CascadingStream(source, paths[i]))
  }

  /** The entries one plugin contributes: its `PullOnStart` paths, then its
      `PullOnSub` paths, both with source `name + "Pull"`. */
  function PluginEntries(p: Plugin): (ss: seq<CascadingStream>)
    ensures forall i :: 0 <= i < |ss| ==> ss[i].source == p.name + "Pull"
    ensures p.pull.None? ==> ss == []
    ensures p.pull.Some? ==> |ss| == |p.pull.value.onStart| + |p.pull.value.onSub|
  {
    match p.pull
    case None => []
    case Some(c) => Entries(p.name + "Pull", c.onStart) + Entries(p.name + "Pull", c.onSub)
  }

  /** The configuration-sourced part of the list, plugin by plugin. */
  function ConfigEntries(plugins: seq<Plugin>): (ss: seq<CascadingStream>)
    ensures forall i :: 0 <= i < |ss| ==> ss[i].source != ApiSource
  {
    if |plugins| == 0 then []
    else
      var first := PluginEntries(plugins[0]);
      assert forall i :: 0 <= i < |first| ==> |first[i].source| >= 4;
      first + ConfigEntries(plugins[1..])
  }

  /** A plugin lists every path of its two pull maps. */
  lemma PluginEntriesList(p: Plugin, path: string)
    requires p.pull.Some? && (path in p.pull.value.onStart || path in p.pull.value.onSub)
    ensures CascadingStream(p.name + "Pull", path) in PluginEntries(p)
  {
    var c := p.pull.value;
    var src := p.name + "Pull";
    var ss := PluginEntries(p);
    assert ss == Entries(src, c.onStart) + Entries(src, c.onSub);
    if path in c.onStart {
      var k :| 0 <= k < |c.onStart| && c.onStart[k] == path;
      assert ss[k] == Entries(src, c.onStart)[k];
    } else {
      var k :| 0 <= k < |c.onSub| && c.onSub[k] == path;
      assert ss[|c.onStart| + k] == Entries(src, c.onSub)[k];
    }
  }

  /** Every entry a plugin contributes is one of its pull paths, under its
      source name. */
  lemma PluginEntriesOnlyConfigured(p: Plugin, i: nat)
    requires i < |PluginEntries(p)|
    ensures p.pull.Some?
    ensures PluginEntries(p)[i].source == p.name + "Pull"
    ensures PluginEntries(p)[i].streamPath in p.pull.value.onStart
         || PluginEntries(p)[i].streamPath in p.pull.value.onSub
  {
    var c := p.pull.value;
    var src := p.name + "Pull";
    var ss := PluginEntries(p);
    assert ss == Entries(src, c.onStart) + Entries(src, c.onSub);
    if i < |c.onStart| {
      assert ss[i] == Entries(src, c.onStart)[i];
    } else {
      assert ss[i] == Entries(src, c.onSub)[i - |c.onStart|];
    }
  }

  /** `e` is a path of plugin `plugins[j]`'s pull config, under that
      plugin's source name. */
  predicate ConfiguredBy(plugins: seq<Plugin>, j: int, e: CascadingStream)
  {
    && 0 <= j < |plugins| && plugins[j].pull.Some?
    && e.source == plugins[j].name + "Pull"
    && (e.streamPath in plugins[j].pull.value.onStart || e.streamPath in plugins[j].pull.value.onSub)
  }

  /** The converse of `ConfiguredPathsListed`: every configuration-sourced
      entry is a pull path of some plugin, under that plugin's source
      name. */
  lemma {:induction false} ConfigEntriesOnlyConfigured(plugins: seq<Plugin>, i: nat)
    requires i < |ConfigEntries(plugins)|
    ensures exists j :: ConfiguredBy(plugins, j, ConfigEntries(plugins)[i])
  {
    var first := PluginEntries(plugins[0]);
    assert ConfigEntries(plugins) == first + ConfigEntries(plugins[1..]);
    if i < |first| {
      PluginEntriesOnlyConfigured(plugins[0], i);
      assert ConfiguredBy(plugins, 0, ConfigEntries(plugins)[i]);
    } else {
      ConfigEntriesOnlyConfigured(plugins[1..], i - |first|);
      var j :| ConfiguredBy(plugins[1..], j, ConfigEntries(plugins[1..])[i - |first|]);
      assert plugins[1..][j] == plugins[j + 1];
      assert ConfiguredBy(plugins, j + 1, ConfigEntries(plugins)[i]);
    }
  }

  /** Every path a pull config names is in the configuration-sourced
      part, with its plugin's source name. */
  lemma {:induction false} ConfiguredPathsListed(plugins: seq<Plugin>, j: nat, path: string)
    requires j < |plugins| && plugins[j].pull.Some?
    requires path in plugins[j].pull.value.onStart || path in plugins[j].pull.value.onSub
    ensures CascadingStream(plugins[j].name + "Pull", path) in ConfigEntries(plugins)
  {
    assert ConfigEntries(plugins) == PluginEntries(plugins[0]) + ConfigEntries(plugins[1..]);
    if j == 0 {
      PluginEntriesList(plugins[0], path);
    } else {
      assert plugins[1..][j - 1] == plugins[j];
      ConfiguredPathsListed(plugins[1..], j - 1, path);
    }
  }

  /** What one `Streams.Range` pass guarantees about its result `r`
      starting from the list `ss`. */
  predicate AppendsOver(ss: seq<CascadingStream>, engine: seq<string>, r: seq<CascadingStream>)
  {
    && |ss| <= |r| && r[..|ss|] == ss
    && (forall i :: |ss| <= i < |r| ==> r[i].source == ApiSource && r[i].streamPath in engine)
    && (forall i :: |ss| <= i < |r| ==> !Listed(r[..i], r[i].streamPath))
    && (forall p :: p in engine ==> Listed(r, p))
  }

  /** The first stream of the pass, then the rest. */
  lemma AppendStep(ss: seq<CascadingStream>, engine: seq<string>, next: seq<CascadingStream>,
                   r: seq<CascadingStream>)
    requires |engine| > 0
    requires next == if Listed(ss, engine[0]) then ss else ss + [CascadingStream(ApiSource, engine[0])]
    requires AppendsOver(next, engine[1..], r)
    ensures AppendsOver(ss, engine, r)
  {
    assert r[..|next|] == next;
    assert r[..|ss|] == ss by {
      assert next[..|ss|] == ss;
    }
    assert Listed(next, engine[0]) by {
      if !Listed(ss, engine[0]) {
        assert next[|ss|].streamPath == engine[0];
      }
    }
    assert Listed(r, engine[0]) by {
      assert r == next + r[|next|..];
      ListedPrefix(next, r[|next|..], engine[0]);
    }
    forall i | |ss| <= i < |r|
      ensures r[i].source == ApiSource && r[i].streamPath in engine
      ensures !Listed(r[..i], r[i].streamPath)
    {
      if i < |next| {
        assert r[i] == next[i] && r[..i] == ss;
      } else {
        assert r[i].streamPath in engine[1..];
      }
    }
    forall p | p in engine
      ensures Listed(r, p)
    {
      if p != engine[0] {
        assert p in engine[1..];
      }
    }
  }

  /** The `Streams.Range` pass: each engine stream whose path is not yet
      listed is appended with source "api". */
  function AppendApi(ss: seq<CascadingStream>, engine: seq<string>): (r: seq<CascadingStream>)
    ensures |ss| <= |r| && r[..|ss|] == ss
    ensures forall i :: |ss| <= i < |r| ==> r[i].source == ApiSource && r[i].streamPath in engine
    ensures forall i :: |ss| <= i < |r| ==> !Listed(r[..i], r[i].streamPath)
    ensures forall p :: p in engine ==> Listed(r, p)
    decreases |engine|
  {
    if |engine| == 0 then ss
    else
      var next := if Listed(ss, engine[0]) then ss else ss + [CascadingStream(ApiSource, engine[0])];
      var r := AppendApi(next, engine[1..]);
      AppendStep(ss, engine, next, r);
      r
  }

  /** `filterStreams`. */
  function FilterStreams(plugins: seq<Plugin>, engine: seq<string>): (r: seq<CascadingStream>)
    ensures |ConfigEntries(plugins)| <= |r| && r[..|ConfigEntries(plugins)|] == ConfigEntries(plugins)
    ensures forall i :: |ConfigEntries(plugins)| <= i < |r| ==> r[i].source == ApiSource && r[i].streamPath in engine
    ensures forall p :: p in engine ==> Listed(r, p)
  {
    AppendApi(ConfigEntries(plugins), engine)
  }

  /** Every configuration-sourced entry comes before every "api" entry. */
  lemma ConfigBeforeApi(plugins: seq<Plugin>, engine: seq<string>, i: nat, j: nat)
    requires i < |FilterStreams(plugins, engine)| && j < |FilterStreams(plugins, engine)|
    requires FilterStreams(plugins, engine)[i].source != ApiSource
    requires FilterStreams(plugins, engine)[j].source == ApiSource
    ensures i < j
  {
    var cfg := ConfigEntries(plugins);
    var r := FilterStreams(plugins, engine);
    assert forall k :: 0 <= k < |cfg| ==> r[k] == r[..|cfg|][k];
  }

  /** The list starts with the configuration-sourced entries, unchanged
      and in order. */
  lemma ConfigEntriesFirst(plugins: seq<Plugin>, engine: seq<string>)
    ensures |ConfigEntries(plugins)| <= |FilterStreams(plugins, engine)|
    ensures FilterStreams(plugins, engine)[..|ConfigEntries(plugins)|] == ConfigEntries(plugins)
  {
  }

  /** Every running stream appears in the list, and no path appears in two
      "api" entries or in an "api" entry and a configured one. */
  lemma ApiEntriesUnique(plugins: seq<Plugin>, engine: seq<string>, i: nat, j: nat)
    requires i < j < |FilterStreams(plugins, engine)|
    requires FilterStreams(plugins, engine)[j].source == ApiSource
    ensures FilterStreams(plugins, engine)[i].streamPath != FilterStreams(plugins, engine)[j].streamPath
  {
    var cfg := ConfigEntries(plugins);
    var r := FilterStreams(plugins, engine);
    assert forall k :: 0 <= k < |cfg| ==> r[k] == r[..|cfg|][k];
    assert r[..j][i] == r[i];
  }

  /** Every engine stream is listed. */
  lemma EngineStreamsListed(plugins: seq<Plugin>, engine: seq<string>, path: string)
    requires path in engine
    ensures Listed(FilterStreams(plugins, engine), path)
  {
  }

  /** An "api" entry is exactly a running stream that no configuration
      lists. */
  lemma ApiEntryIffUnconfigured(plugins: seq<Plugin>, engine: seq<string>, path: string)
    requires path in engine
    ensures CascadingStream(ApiSource, path) in FilterStreams(plugins, engine) <==> !Listed(ConfigEntries(plugins), path)
  {
    var cfg := ConfigEntries(plugins);
    var r := FilterStreams(plugins, engine);
    assert forall k :: 0 <= k < |cfg| ==> r[k] == r[..|cfg|][k];
    if CascadingStream(ApiSource, path) in r {
      var j :| 0 <= j < |r| && r[j] == CascadingStream(ApiSource, path);
      assert r[..j][..|cfg|] == cfg;
      NotListedPrefix(cfg, r[..j], path);
    } else {
      var j :| 0 <= j < |r| && r[j].streamPath == path;
      assert j < |cfg| ==> cfg[j].streamPath == path;
    }
  }

  /** What a list does not name, no prefix of it names. */
  lemma NotListedPrefix(a: seq<CascadingStream>, b: seq<CascadingStream>, path: string)
    requires |a| <= |b| && b[..|a|] == a
    requires !Listed(b, path)
    ensures !Listed(a, path)
  {
    forall i | 0 <= i < |a|
      ensures a[i].streamPath != path
    {
      assert a[i] == b[i];
    }
  }

  // ---------------------------------------------------------------------
  // API_streamlist

  /** The fixed request for a downstream platform's stream list. */
  const StreamListRequest: ProxyMessage := ProxyMessage("/erwscascade/api/streamlist", map[], "GET", [])

  datatype StreamListReply = LocalList(streams: seq<CascadingStream>) | NoReply(error: ProxyError) | Forwarded(body: Bytes)

  /** `API_streamlist`: with no cid the local list; otherwise the list is
      asked of that downstream platform through the tunnel. */
  function StreamList(h: Hub, json: Json, query: Params, plugins: seq<Plugin>, engine: seq<string>,
                      writeOk: bool, arrivals: seq<Envelope>): (out: (Hub, Option<ProxyMessage>, StreamListReply))
    ensures out.2.LocalList? <==> QueryGet(query, "cid") == ""
    ensures out.2.LocalList? ==> out.0 == h && out.1.None?
    ensures out.2.LocalList? ==> out.2.streams == FilterStreams(plugins, engine)
    ensures out.2.LocalList? ==> forall p :: p in engine ==> Listed(out.2.streams, p)
    ensures !out.2.LocalList? ==>
      var c := TransWsProxyMessage(h, QueryGet(query, "cid"), StreamListRequest, json, writeOk, arrivals);
      && out.1 == Some(StreamListRequest) && out.0 == c.hub
      && (c.result.Ok? ==> out.2 == Forwarded(c.result.value))
      && (c.result.Err? ==> out.2 == NoReply(c.result.error))
  {
    var cid := QueryGet(query, "cid");
    if cid == "" then (h, None, LocalList(FilterStreams(plugins, engine)))
    else
      var c := TransWsProxyMessage(h, cid, StreamListRequest, json, writeOk, arrivals);
      match c.result
      case Ok(rsp) => (c.hub, Some(StreamListRequest), Forwarded(rsp))
      case Err(e) => (c.hub, Some(StreamListRequest), NoReply(e))
  }

  /** No element occurs twice. */
  predicate Distinct(s: seq<string>)
  {
    forall i, j :: 0 <= i < j < |s| ==> s[i] != s[j]
  }

  /** A sequence without repeats has as many elements as its set. */
  lemma {:induction false} DistinctCard(s: seq<string>)
    requires Distinct(s)
    ensures |set x | x in s| == |s|
  {
    if |s| > 0 {
      DistinctCard(s[1..]);
      assert (set x | x in s) == {s[0]} + (set x | x in s[1..]);
      assert s[0] !in s[1..];
    }
  }

  /** `API_clientlist`: the identity of every registered client. `order`
      is the order the map iteration visits the cids in, each once. */
  function ClientList(h: Hub, order: seq<string>): (list: seq<ClientInfo>)
    requires forall k :: k in order <==> k in h.clients
    requires Distinct(order)
    ensures |list| == |order| == |h.clients|
    ensures forall i :: 0 <= i < |list| ==> list[i] == h.clients[order[i]].info
    ensures forall k :: k in h.clients ==> h.clients[k].info in list
  {
    var list := seq(|order|, i requires 0 <= i < |order| => h.clients[order[i]].info);
    assert forall k :: k in h.clients ==> exists i :: 0 <= i < |order| && order[i] == k && list[i] == h.clients[k].info;
    DistinctCard(order);
    assert (set x | x in order) == h.clients.Keys;
    list
  }

  /** Every listed identity is that of a registered client. */
  lemma ClientListOnlyRegistered(h: Hub, order: seq<string>, i: nat)
    requires forall k :: k in order <==> k in h.clients
    requires Distinct(order)
    requires i < |order|
    ensures exists k :: k in h.clients && ClientList(h, order)[i] == h.clients[k].info
  {
    assert order[i] in order;
    var k := order[i];
    assert ClientList(h, order)[i] == h.clients[k].info;
  }
}
