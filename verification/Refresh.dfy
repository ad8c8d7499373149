/**
 * The browser's silent refresh (apps/frontend/lib/api.ts): one tab's single-flight refresh, its 401 interceptor and its
 * idempotency keys, against a server that rotates refresh tokens and treats a rotated one as theft.
 */
module Refresh {
  import opened Text
  import opened Wrappers

  type Token = nat
  type Access = nat
  type IdemKey = nat

  /** The `code` field of a problem body. */
  datatype Code = NoCode | TextCode(s: string) | OtherCode

  datatype Body = NotAnObject | Fields(code: Code)

  datatype Response = NoResponse | Http(status: nat, body: Body)

  const MFA_STEP_UP_CODES := ["mfa_required", "mfa_invalid", "mfa_replay"]

  predicate IsMfaStepUp(body: Body) {
    body.Fields? && body.code.TextCode? && body.code.s in MFA_STEP_UP_CODES
  }

  /** "/auth" as a whole path segment, anywhere in the URL. */
  predicate IsAuthRoute(url: Option<string>) {
    url.Some? && exists i: nat :: i + 5 <= |url.value| && AuthSegment(url.value, i)
  }

  predicate AuthSegment(url: string, i: nat)
    requires i + 5 <= |url|
  {
    url[i..i + 5] == "/auth" && (i + 5 < |url| ==> url[i + 5] == '/')
  }

  /** The auth routes are the URLs with a path segment "auth": one of the pieces between slashes, but not the first. */
  lemma {:induction false} AuthRouteExact(url: string)
    ensures IsAuthRoute(Some(url)) <==> exists k :: 1 <= k < |Split(url, '/')| && Split(url, '/')[k] == "auth"
    decreases |url|
  {
    hide Split;
    SplitUrl(url);
    var i := IndexOf(url, '/');
    if i < |url| {
      var rest := url[i + 1..];
      AuthRouteExact(rest);
      FirstPiece(rest);
      assert AuthHere(url, i) <==> Split(rest, '/')[0] == "auth" by {
        assert forall j :: 0 <= j < |rest| ==> rest[j] == url[i + 1 + j];
        HereIsFirst(url, i);
      }
      LaterSegments(url, i);
      var pieces, more := Split(url, '/'), Split(rest, '/');
      assert forall k :: 1 <= k < |pieces| ==> pieces[k] == more[k - 1];
      assert forall k :: 0 <= k < |more| ==> pieces[k + 1] == more[k];
    } else {
      assert url[..i] == url;
      forall j: nat | j + 5 <= |url| ensures !AuthSegment(url, j) {
        assert url[j] != '/' && "/auth"[0] == '/' && url[j..j + 5][0] == url[j];
      }
    }
  }

  predicate AuthHere(url: string, i: nat) {
    i + 5 <= |url| && AuthSegment(url, i)
  }

  lemma SplitUrl(url: string)
    ensures var i := IndexOf(url, '/');
      Split(url, '/') == if i == |url| then [url] else [url[..i]] + Split(url[i + 1..], '/')
  {
  }

  lemma FirstPiece(s: string)
    ensures Split(s, '/') != [] && Split(s, '/')[0] == s[..IndexOf(s, '/')]
  {
  }

  lemma HereIsFirst(url: string, i: nat)
    requires i < |url| && url[i] == '/'
    ensures var rest := url[i + 1..]; AuthHere(url, i) <==> rest[..IndexOf(rest, '/')] == "auth"
  {
    var rest := url[i + 1..];
    var n := IndexOf(rest, '/');
    assert forall j :: 0 <= j < |rest| ==> rest[j] == url[i + 1 + j];
    if AuthHere(url, i) {
      assert url[i..i + 5][1..] == "auth" && rest[..4] == url[i..i + 5][1..];
      assert "auth"[0] == 'a' && "auth"[1] == 'u' && "auth"[2] == 't' && "auth"[3] == 'h';
      assert rest[0] == rest[..4][0] && rest[1] == rest[..4][1] && rest[2] == rest[..4][2] && rest[3] == rest[..4][3];
      assert n >= 4 by {
        assert n < |rest| ==> rest[n] == '/';
      }
      forall j: nat | j < n ensures rest[j] != '/' {
        assert rest[..n][j] == rest[j];
      }
      assert n == 4;
    }
    if rest[..n] == "auth" {
      assert n == 4 && url[i..i + 5] == ['/'] + rest[..4] && "/auth" == ['/'] + "auth";
    }
  }

  lemma LaterSegments(url: string, i: nat)
    requires i < |url| && '/' !in url[..i] && url[i] == '/'
    ensures IsAuthRoute(Some(url)) <==> AuthHere(url, i) || IsAuthRoute(Some(url[i + 1..]))
  {
    var rest := url[i + 1..];
    forall j: nat | AuthHere(url, j) ensures j >= i {
      assert url[j] == url[j..j + 5][0] == '/';
      forall m: nat | m < i ensures url[m] != '/' {
        assert url[..i][m] == url[m];
      }
    }
    forall j: nat | j + 5 <= |rest| ensures AuthHere(rest, j) <==> AuthHere(url, i + 1 + j) {
      assert rest[j..j + 5] == url[i + 1 + j..i + 1 + j + 5];
    }
    if IsAuthRoute(Some(url)) && !AuthHere(url, i) {
      var j: nat :| j + 5 <= |url| && AuthSegment(url, j);
      assert AuthHere(url, j) && AuthHere(rest, j - i - 1);
    }
    if IsAuthRoute(Some(rest)) {
      var j: nat :| j + 5 <= |rest| && AuthSegment(rest, j);
      assert AuthHere(rest, j) && AuthHere(url, i + 1 + j);
    }
  }

  /** Waiting: suspended in the interceptor on the refresh promise of that call. */
  datatype Phase = Flying | Waiting(call: nat) | Finished

  /** `sent` is history: the key header of every time the request went out. */
  datatype Request = Request(url: Option<string>, mutating: bool, key: Option<IdemKey>, retried: bool,
                             sent: seq<Option<IdemKey>>, bearer: Option<Access>, phase: Phase)

  datatype Grant = Grant(token: Token, access: Access)

  /** A refresh request on the network: on its way with the cookie of that moment, or answered (None: refused). */
  datatype Call = Outbound(token: Option<Token>) | Answered(reply: Option<Grant>)

  /** `settled` holds the result of every refresh promise that has resolved. */
  datatype Tab = Tab(cookie: Option<Token>, access: Option<Access>, inflight: Option<nat>, calls: map<nat, Call>,
                     settled: map<nat, Option<Access>>, requests: map<nat, Request>, started: nat, bootstraps: nat, logouts: nat)

  /** Tokens below `issued` exist; presenting a rotated one is taken for theft. */
  datatype Server = Server(issued: nat, rotated: set<Token>, theft: bool)

  /** `orphans` are refresh requests the tab has given up on and the server has not handled yet. */
  datatype World = World(tab: Tab, server: Server, orphans: map<nat, Option<Token>>)

  // ---- The client ----

  /** refreshSession: the call in flight if there is one, a new one otherwise. */
  function RefreshSession(t: Tab): (Tab, nat) {
    if t.inflight.Some? then (t, t.inflight.value)
    else (t.(inflight := Some(t.started), calls := t.calls[t.started := Outbound(t.cookie)], started := t.started + 1), t.started)
  }

  /** The request interceptors: the bearer header, and a key for a mutating request that has none. */
  function Outgoing(access: Option<Access>, r: Request, newKey: IdemKey): Request {
    var key := if r.mutating && r.key.None? then Some(newKey) else r.key;
    r.(key := key, bearer := if access.Some? then access else r.bearer, sent := r.sent + [key], phase := Flying)
  }

  function Launch(t: Tab, id: nat, r: Request, newKey: IdemKey): Tab {
    t.(requests := t.requests[id := Outgoing(t.access, r, newKey)])
  }

  function Finish(t: Tab, id: nat, loggedOut: bool): Tab
    requires id in t.requests
  {
    t.(requests := t.requests[id := t.requests[id].(phase := Finished)], logouts := t.logouts + if loggedOut then 1 else 0)
  }

  /** The response interceptor, test by test. */
  function OnResponse(t: Tab, id: nat, response: Response): Tab
    requires id in t.requests
  {
    var r := t.requests[id];
    if response.NoResponse? then Finish(t, id, false)
    else if response.status == 401 && IsMfaStepUp(response.body) then Finish(t, id, false)
    else if response.status == 401 && !r.retried && !IsAuthRoute(r.url) then
      var (t', call) := RefreshSession(t);
      t'.(requests := t'.requests[id := r.(retried := true, phase := Waiting(call))])
    else Finish(t, id, response.status == 401 && !IsAuthRoute(r.url))
  }

  /** The interceptor resumes once its promise has settled: retry with the new token, or log out. */
  function OnSettled(t: Tab, id: nat, newKey: IdemKey): Tab
    requires id in t.requests && t.requests[id].phase.Waiting? && t.requests[id].phase.call in t.settled
  {
    var r := t.requests[id];
    match t.settled[r.phase.call]
    case Some(access) => Launch(t, id, r.(bearer := Some(access)), newKey)
    case None => Finish(t, id, true)
  }

  function Settle(t: Tab, call: nat, result: Option<Access>): Tab {
    t.(access := result, inflight := None, calls := t.calls - {call}, settled := t.settled[call := result])
  }

  /** The module state of api.ts, with the network beside it. */
  class ApiClient {
    var cookie: Option<Token>
    var accessToken: Option<Access>
    var refreshInflight: Option<nat>
    var calls: map<nat, Call>
    var settled: map<nat, Option<Access>>
    var requests: map<nat, Request>
    var started: nat
    var bootstraps: nat
    var logouts: nat

    function View(): Tab
      reads this
    {
      Tab(cookie, accessToken, refreshInflight, calls, settled, requests, started, bootstraps, logouts)
    }

    constructor (cookie: Option<Token>)
      ensures View() == NewTab(cookie)
    {
      this.cookie, accessToken, refreshInflight := cookie, None, None;
      calls, settled, requests, started, bootstraps, logouts := map[], map[], map[], 0, 0, 0;
    }

    method Refresh() returns (call: nat)
      modifies this
      ensures (View(), call) == RefreshSession(old(View()))
      ensures old(refreshInflight).Some? ==> View() == old(View()) && call == old(refreshInflight).value
      ensures old(refreshInflight).None? ==>
        && call == old(started) && started == call + 1 && refreshInflight == Some(call)
        && calls == old(calls)[call := Outbound(cookie)]
      ensures cookie == old(cookie) && accessToken == old(accessToken) && requests == old(requests) && logouts == old(logouts)
    {
      if refreshInflight.None? {
        calls := calls[started := Outbound(cookie)];
        refreshInflight := Some(started);
        started := started + 1;
      }
      call := refreshInflight.value;
    }

    method Send(id: nat, r: Request, newKey: IdemKey)
      modifies this
      ensures View() == Launch(old(View()), id, r, newKey)
      ensures requests.Keys == old(requests).Keys + {id} && forall j :: j in requests && j != id ==> requests[j] == old(requests)[j]
      ensures var key := if r.mutating && r.key == None then Some(newKey) else r.key;
        requests[id] == r.(key := key, bearer := if accessToken.Some? then accessToken else r.bearer,
                           sent := r.sent + [key], phase := Flying)
      ensures accessToken == old(accessToken) && calls == old(calls) && logouts == old(logouts)
    {
      var key := r.key;
      if r.mutating && key.None? {
        key := Some(newKey);
      }
      var bearer := r.bearer;
      if accessToken.Some? {
        bearer := accessToken;
      }
      requests := requests[id := r.(key := key, bearer := bearer, sent := r.sent + [key], phase := Flying)];
    }

    method HandleResponse(id: nat, response: Response)
      requires id in requests
      modifies this
      ensures View() == OnResponse(old(View()), id, response)
      ensures requests.Keys == old(requests).Keys && forall j :: j in requests && j != id ==> requests[j] == old(requests)[j]
      ensures var r := old(requests)[id];
        var unauthorized := response.Http? && response.status == 401 && !IsMfaStepUp(response.body);
        if unauthorized && !r.retried && !IsAuthRoute(r.url) then
          requests[id] == r.(retried := true, phase := requests[id].phase) && requests[id].phase.Waiting?
          && refreshInflight == Some(requests[id].phase.call) && logouts == old(logouts)
        else
          requests[id] == r.(phase := Finished) && refreshInflight == old(refreshInflight) && calls == old(calls)
          && logouts == old(logouts) + if unauthorized && !IsAuthRoute(r.url) then 1 else 0
    {
      var r := requests[id];
      if response.NoResponse? || (response.status == 401 && IsMfaStepUp(response.body)) {
        requests := requests[id := r.(phase := Finished)];
        return;
      }
      if response.status == 401 && !r.retried && !IsAuthRoute(r.url) {
        var call := Refresh();
        requests := requests[id := r.(retried := true, phase := Waiting(call))];
        return;
      } else if response.status == 401 && (r.retried || IsAuthRoute(r.url)) {
        if !IsAuthRoute(r.url) {
          logouts := logouts + 1;
        }
      }
      requests := requests[id := r.(phase := Finished)];
    }

    method ResumeAfterRefresh(id: nat, newKey: IdemKey)
      requires id in requests && requests[id].phase.Waiting? && requests[id].phase.call in settled
      modifies this
      ensures View() == OnSettled(old(View()), id, newKey)
      ensures var r, token := old(requests)[id], settled[old(requests)[id].phase.call];
        if token.Some? then
          requests[id].phase == Flying && |requests[id].sent| == |r.sent| + 1 && logouts == old(logouts)
          && requests[id].bearer == if accessToken.Some? then accessToken else token
        else requests[id] == r.(phase := Finished) && logouts == old(logouts) + 1
    {
      var r := requests[id];
      var newToken := settled[r.phase.call];
      if newToken.Some? {
        Send(id, r.(bearer := newToken), newKey);
      } else {
        logouts := logouts + 1;
        requests := requests[id := r.(phase := Finished)];
      }
    }
  }

  function NewTab(cookie: Option<Token>): Tab {
    Tab(cookie, None, None, map[], map[], map[], 0, 0, 0)
  }

  // ---- The world ----

  datatype Event =
    | Start(id: nat, url: Option<string>, mutating: bool, callerKey: Option<IdemKey>, newKey: IdemKey)
    | Bootstrap
    | Reply(id: nat, response: Response)
    | Resume(id: nat, newKey: IdemKey)
    | AtServer(call: nat, grant: bool, access: Access)   // the server handles a refresh; it may refuse a live token
    | RefreshReply(call: nat)
    | RefreshLost(call: nat)                             // the tab sees a network error, before or after the server
    | Straggler(call: nat, grant: bool)                  // the server handles a request the tab has given up on
    | Login(access: Access)                              // a sign-in: a token of a new family

  function Next(w: World, e: Event): World {
    var t := w.tab;
    match e
    case Start(id, url, mutating, callerKey, newKey) =>
      if id in t.requests then w
      else w.(tab := Launch(t, id, Request(url, mutating, callerKey, false, [], None, Flying), newKey))
    case Bootstrap => w.(tab := RefreshSession(t).0.(bootstraps := t.bootstraps + 1))
    case Reply(id, response) =>
      if id in t.requests && t.requests[id].phase == Flying then w.(tab := OnResponse(t, id, response)) else w
    case Resume(id, newKey) =>
      if id in t.requests && t.requests[id].phase.Waiting? && t.requests[id].phase.call in t.settled then
        w.(tab := OnSettled(t, id, newKey))
      else w
    case AtServer(call, grant, access) =>
      if call in t.calls && t.calls[call].Outbound? then
        var (server, reply) := Serve(w.server, t.calls[call].token, grant, access);
        w.(tab := t.(calls := t.calls[call := Answered(reply)]), server := server)
      else w
    case RefreshReply(call) =>
      if call in t.calls && t.calls[call].Answered? then w.(tab := Arrive(t, call, t.calls[call].reply)) else w
    case RefreshLost(call) =>
      if call in t.calls then
        w.(tab := Settle(t, call, None),
           orphans := if t.calls[call].Outbound? then w.orphans[call := t.calls[call].token] else w.orphans)
      else w
    case Straggler(call, grant) =>
      if call in w.orphans then
        w.(server := Serve(w.server, w.orphans[call], grant, 0).0, orphans := w.orphans - {call})
      else w
    case Login(access) =>
      w.(tab := t.(cookie := Some(w.server.issued), access := Some(access)), server := w.server.(issued := w.server.issued + 1))
  }

  /** Single-use rotation with reuse detection. */
  function Serve(s: Server, token: Option<Token>, grant: bool, access: Access): (Server, Option<Grant>) {
    if token.Some? && token.value in s.rotated then (s.(theft := true), None)
    else if token.Some? && token.value < s.issued && grant then
      (s.(issued := s.issued + 1, rotated := s.rotated + {token.value}), Some(Grant(s.issued, access)))
    else (s, None)
  }

  function Arrive(t: Tab, call: nat, reply: Option<Grant>): Tab {
    match reply
    case Some(grant) => Settle(t.(cookie := Some(grant.token)), call, Some(grant.access))
    case None => Settle(t, call, None)
  }

  function Play(w: World, events: seq<Event>): World {
    if events == [] then w else Next(Play(w, events[..|events| - 1]), events[|events| - 1])
  }

  /** What starts a request, a refresh at page load, and a sign-in. */
  lemma StartsTakeEffect(w: World, id: nat, url: Option<string>, mutating: bool, callerKey: Option<IdemKey>,
                         newKey: IdemKey,
                         access: Access)
    ensures id !in w.tab.requests ==>
      var t := Next(w, Start(id, url, mutating, callerKey, newKey)).tab;
      && t == w.tab.(requests := t.requests) && t.requests.Keys == w.tab.requests.Keys + {id}
      && t.requests[id].url == url && t.requests[id].phase == Flying && t.requests[id].bearer == w.tab.access
      && t.requests[id].sent == [if mutating && callerKey.None? then Some(newKey) else callerKey]
    ensures var t := Next(w, Bootstrap).tab;
      && t.inflight.Some? && t.bootstraps == w.tab.bootstraps + 1
      && (w.tab.inflight.None? ==> t.inflight.value in t.calls && t.calls[t.inflight.value] == Outbound(w.tab.cookie))
    ensures var after := Next(w, Login(access));
      after.tab.access == Some(access) && after.tab.cookie == Some(w.server.issued) && after.server.issued == w.server.issued + 1
  {
  }

  /** A request that waited goes out again once, with the tab's token or else the refreshed one, or ends with a logout. */
  lemma ResumeTakesEffect(w: World, id: nat, newKey: IdemKey)
    requires id in w.tab.requests && w.tab.requests[id].phase.Waiting? && w.tab.requests[id].phase.call in w.tab.settled
    ensures var r, t, token := w.tab.requests[id], Next(w, Resume(id, newKey)).tab, w.tab.settled[w.tab.requests[id].phase.call];
      && id in t.requests
      && if token.Some? then
           t.requests[id].phase == Flying && |t.requests[id].sent| == |r.sent| + 1 && t.logouts == w.tab.logouts
           && t.requests[id].bearer == if w.tab.access.Some? then w.tab.access else token
         else t.requests[id] == r.(phase := Finished) && t.logouts == w.tab.logouts + 1
  {
  }

  /** A request the tab gave up on is handled at most once. */
  lemma StragglerOnce(w: World, call: nat, grant: bool)
    ensures call !in Next(w, Straggler(call, grant)).orphans && Next(w, Straggler(call, grant)).tab == w.tab
  {
  }

  /** A refresh given up on leaves its joiners without a token; if the server had not handled it, it still may. */
  lemma LossTakesEffect(w: World, call: nat)
    requires call in w.tab.calls
    ensures var after := Next(w, RefreshLost(call));
      && call !in after.tab.calls && after.tab.inflight == None && after.tab.access == None
      && call in after.tab.settled && after.tab.settled[call] == None
      && (w.tab.calls[call].Outbound? ==> call in after.orphans && after.orphans[call] == w.tab.calls[call].token)
  {
  }

  /** Exactly three codes mean a step-up, and only as text in an object body. */
  lemma StepUpCodes(body: Body)
    ensures IsMfaStepUp(body) <==>
      body in {Fields(TextCode("mfa_required")), Fields(TextCode("mfa_invalid")), Fields(TextCode("mfa_replay"))}
  {
  }

  /** What the server does with a refresh: theft on a rotated token, one new token for a live one it grants. */
  lemma ServeExact(s: Server, token: Option<Token>, grant: bool, access: Access)
    ensures var (s', reply) := Serve(s, token, grant, access);
      && (s'.theft <==> s.theft || (token.Some? && token.value in s.rotated))
      && (reply.Some? <==> grant && token.Some? && token.value !in s.rotated && token.value < s.issued)
      && (reply.Some? ==> reply.value == Grant(s.issued, access) && s'.issued == s.issued + 1 && s'.rotated == s.rotated + {token.value})
      && (reply.None? ==> s'.issued == s.issued && s'.rotated == s.rotated)
  {
  }

  /** The reply of a refresh reaches every tab variable at once: access token, cookie, and the result its joiners see. */
  lemma ReplyTakesEffect(w: World, call: nat)
    requires call in w.tab.calls && w.tab.calls[call].Answered?
    ensures var t, reply := Next(w, RefreshReply(call)).tab, w.tab.calls[call].reply;
      && call !in t.calls && t.inflight == None && call in t.settled && t.settled[call] == t.access
      && (reply.Some? ==> t.access == Some(reply.value.access) && t.cookie == Some(reply.value.token))
      && (reply.None? ==> t.access == None && t.cookie == w.tab.cookie)
  {
  }

  // ---- Single flight ----

  /** At most one refresh on the network, and it is the one new callers join. */
  ghost predicate OneCall(t: Tab) {
    && (forall c :: c in t.calls <==> t.inflight == Some(c))
    && (forall c :: c in t.calls ==> c < t.started && c !in t.settled)
    && (forall c :: c in t.settled ==> c < t.started)
  }

  /** And nobody waits for a call that is gone without a result. */
  ghost predicate SingleFlight(t: Tab) {
    OneCall(t) && forall id :: id in t.requests ==> Joined(t, t.requests[id])
  }

  ghost predicate Joined(t: Tab, r: Request) {
    r.phase.Waiting? ==> r.phase.call in t.settled || t.inflight == Some(r.phase.call)
  }

  /** A request goes out at most twice, every time with the key it went out with first. */
  ghost predicate SentOk(r: Request) {
    && 1 <= |r.sent| <= 2
    && (|r.sent| == 2 || r.phase.Waiting? ==> r.retried)
    && (r.phase.Waiting? ==> |r.sent| == 1)
    && (forall i :: 0 <= i < |r.sent| ==> r.sent[i] == r.key)
    && (r.mutating ==> r.key.Some?)
  }

  ghost predicate AllSentOk(t: Tab) {
    forall id :: id in t.requests ==> SentOk(t.requests[id])
  }

  /**
   * What a step can do to the refresh calls: at most answer one, start one if there is none, or settle the one there
   * is.
   */
  ghost predicate CallsMove(t: Tab, t': Tab) {
    || (t'.calls.Keys == t.calls.Keys && t'.inflight == t.inflight && t'.settled == t.settled && t'.started == t.started)
    || (t.inflight.None? && t'.inflight == Some(t.started) && t'.calls.Keys == t.calls.Keys + {t.started}
          && t'.settled == t.settled && t'.started == t.started + 1)
    || (t.inflight.Some? && t'.inflight.None? && t'.calls.Keys == t.calls.Keys - {t.inflight.value}
          && t'.settled.Keys == t.settled.Keys + {t.inflight.value} && t'.started == t.started)
  }

  lemma ResponseMovesCalls(t: Tab, id: nat, response: Response)
    requires id in t.requests
    ensures CallsMove(t, OnResponse(t, id, response))
  {
    hide IsAuthRoute, IsMfaStepUp;
  }

  lemma StepMovesCalls(w: World, e: Event)
    requires OneCall(w.tab)
    ensures CallsMove(w.tab, Next(w, e).tab)
  {
    hide Outgoing, Serve, OnResponse;
    if e.Reply? && e.id in w.tab.requests {
      ResponseMovesCalls(w.tab, e.id, e.response);
    }
  }

  lemma MovedCallsAreOne(t: Tab, t': Tab)
    requires OneCall(t) && CallsMove(t, t')
    ensures OneCall(t')
    ensures forall c :: c in t.settled || t.inflight == Some(c) ==> c in t'.settled || t'.inflight == Some(c)
  {
  }

  lemma StepKeepsOneCall(w: World, e: Event)
    requires OneCall(w.tab)
    ensures OneCall(Next(w, e).tab)
    ensures forall c :: c in w.tab.settled || w.tab.inflight == Some(c) ==>
      c in Next(w, e).tab.settled || Next(w, e).tab.inflight == Some(c)
  {
    hide Next, OneCall, CallsMove;
    StepMovesCalls(w, e);
    MovedCallsAreOne(w.tab, Next(w, e).tab);
  }

  /** What a step can do to a request: nothing, send it, finish it, or make it wait for the call in flight. */
  ghost predicate Moved(t: Tab, before: Request, after: Request) {
    || after == before
    || (before.phase.Waiting? && exists access, bearer, newKey :: after == Outgoing(access, before.(bearer := bearer), newKey))
    || after == before.(phase := Finished)
    || (before.phase == Flying && !before.retried && t.inflight.Some?
          && after == before.(retried := true, phase := Waiting(t.inflight.value)))
  }

  ghost predicate Started(after: Request) {
    exists url, mutating, callerKey, access, newKey ::
      after == Outgoing(access, Request(url, mutating, callerKey, false, [], None, Flying), newKey)
  }

  lemma ResponseMoves(t: Tab, id: nat, response: Response, j: nat)
    requires id in t.requests && t.requests[id].phase == Flying && j in t.requests
    ensures var t' := OnResponse(t, id, response);
      t'.requests.Keys == t.requests.Keys && Moved(t', t.requests[j], t'.requests[j])
  {
    hide Outgoing, IsAuthRoute, IsMfaStepUp;
  }

  lemma RequestAfter(w: World, e: Event, id: nat)
    requires id in Next(w, e).tab.requests
    ensures var t := Next(w, e).tab;
      if id in w.tab.requests then Moved(t, w.tab.requests[id], t.requests[id]) else Started(t.requests[id])
  {
    hide Outgoing, Serve, Settle, OnResponse;
    SettleKeepsRequests();
    if e.Reply? && e.id in w.tab.requests && w.tab.requests[e.id].phase == Flying {
      if id in w.tab.requests {
        ResponseMoves(w.tab, e.id, e.response, id);
      } else {
        ResponseMoves(w.tab, e.id, e.response, e.id);
      }
    }
  }

  lemma SettleKeepsRequests()
    ensures forall t: Tab, call, result :: Settle(t, call, result).requests == t.requests
  {
  }

  lemma MovedStaysOk(t: Tab, before: Request, after: Request)
    requires Moved(t, before, after) && SentOk(before)
    ensures SentOk(after)
  {
  }

  lemma MovedStaysJoined(t: Tab, t': Tab, before: Request, after: Request)
    requires Moved(t', before, after) && Joined(t, before)
    requires forall c :: c in t.settled || t.inflight == Some(c) ==> c in t'.settled || t'.inflight == Some(c)
    ensures Joined(t', after)
  {
  }

  lemma StepKeepsSingleFlight(w: World, e: Event)
    requires SingleFlight(w.tab) && AllSentOk(w.tab)
    ensures SingleFlight(Next(w, e).tab) && AllSentOk(Next(w, e).tab)
  {
    hide Next, OneCall, Moved, Started, SentOk, Joined;
    StepKeepsOneCall(w, e);
    var t := Next(w, e).tab;
    forall id | id in t.requests ensures Joined(t, t.requests[id]) && SentOk(t.requests[id]) {
      RequestAfter(w, e, id);
      if id in w.tab.requests {
        MovedStaysOk(t, w.tab.requests[id], t.requests[id]);
        MovedStaysJoined(w.tab, t, w.tab.requests[id], t.requests[id]);
      } else {
        StartedIsOk(t, t.requests[id]);
      }
    }
  }

  lemma StartedIsOk(t: Tab, r: Request)
    requires Started(r)
    ensures SentOk(r) && Joined(t, r)
  {
  }

  /** Over every run: one refresh at a time, and every request sent at most twice under one key. */
  lemma {:induction false} RunsAreSingleFlight(w: World, events: seq<Event>)
    requires SingleFlight(w.tab) && AllSentOk(w.tab)
    ensures SingleFlight(Play(w, events).tab) && AllSentOk(Play(w, events).tab)
  {
    hide SingleFlight, AllSentOk, Next;
    if events != [] {
      RunsAreSingleFlight(w, events[..|events| - 1]);
      StepKeepsSingleFlight(Play(w, events[..|events| - 1]), events[|events| - 1]);
    }
  }

  /** Joiners share one result: what a refresh promise settled to never changes. */
  lemma {:induction false} SettledOnce(w: World, events: seq<Event>, c: nat)
    requires SingleFlight(w.tab) && AllSentOk(w.tab) && c in w.tab.settled
    ensures c in Play(w, events).tab.settled && Play(w, events).tab.settled[c] == w.tab.settled[c]
  {
    hide SingleFlight, AllSentOk, Next;
    if events != [] {
      var front := events[..|events| - 1];
      SettledOnce(w, front, c);
      RunsAreSingleFlight(w, front);
      StepKeepsSettled(Play(w, front), events[|events| - 1], c);
    }
  }

  lemma StepKeepsSettled(w: World, e: Event, c: nat)
    requires SingleFlight(w.tab) && c in w.tab.settled
    ensures c in Next(w, e).tab.settled && Next(w, e).tab.settled[c] == w.tab.settled[c]
  {
  }

  // ---- Step-up challenges ----

  /** This reply is a step-up challenge to a request on its way. */
  ghost predicate StepsUp(w: World, e: Event) {
    && e.Reply? && e.id in w.tab.requests && w.tab.requests[e.id].phase == Flying
    && e.response.Http? && e.response.status == 401 && IsMfaStepUp(e.response.body)
  }

  /** The requests of a run that a challenge ended. */
  ghost function Challenged(w: World, events: seq<Event>): set<nat> {
    if events == [] then {}
    else
      var front, e := events[..|events| - 1], events[|events| - 1];
      Challenged(w, front) + if StepsUp(Play(w, front), e) then {e.id} else {}
  }

  /** The run without the challenges: those requests are never answered at all. */
  ghost function Unchallenged(w: World, events: seq<Event>): seq<Event> {
    if events == [] then []
    else
      var front, e := events[..|events| - 1], events[|events| - 1];
      if StepsUp(Play(w, front), e) || (e.Reply? && e.id in Challenged(w, front)) then Unchallenged(w, front)
      else Unchallenged(w, front) + [e]
  }

  /** Equal, but that the challenged requests have ended in one world and are still on their way in the other. */
  ghost predicate SameBut(a: World, b: World, challenged: set<nat>) {
    && a == b.(tab := b.tab.(requests := a.tab.requests))
    && a.tab.requests.Keys == b.tab.requests.Keys
    && forall id :: id in a.tab.requests ==> SameRequest(a.tab.requests[id], b.tab.requests[id], id in challenged)
  }

  predicate SameRequest(a: Request, b: Request, challenged: bool) {
    if challenged then b.phase == Flying && a == b.(phase := Finished) else a == b
  }

  lemma ChallengeEnds(a: World, b: World, challenged: set<nat>, e: Event)
    requires SameBut(a, b, challenged) && StepsUp(a, e)
    ensures SameBut(Next(a, e), b, challenged + {e.id})
  {
    hide IsAuthRoute, IsMfaStepUp, Outgoing, Serve;
    assert SameRequest(a.tab.requests[e.id], b.tab.requests[e.id], e.id in challenged);
  }

  lemma LateReplyIgnored(a: World, b: World, challenged: set<nat>, e: Event)
    requires SameBut(a, b, challenged) && e.Reply? && e.id in challenged
    ensures Next(a, e) == a
  {
    hide IsAuthRoute, IsMfaStepUp, Outgoing, Serve;
    assert e.id in a.tab.requests ==> SameRequest(a.tab.requests[e.id], b.tab.requests[e.id], true);
  }

  /** Only these events look at a request. */
  predicate OfRequest(e: Event) {
    e.Start? || e.Reply? || e.Resume?
  }

  function WithRequests(w: World, rs: map<nat, Request>): World {
    w.(tab := w.tab.(requests := rs))
  }

  lemma OthersIgnoreRequests(w: World, rs: map<nat, Request>, e: Event)
    requires !OfRequest(e)
    ensures Next(WithRequests(w, rs), e) == WithRequests(Next(w, e), rs) && Next(w, e).tab.requests == w.tab.requests
  {
    hide Serve, Settle;
    SettleKeeps();
  }

  lemma UpdateAgrees(a: World, b: World, challenged: set<nat>, id: nat, r: Request)
    requires SameBut(a, b, challenged) && id !in challenged
    ensures SameBut(WithRequests(a, a.tab.requests[id := r]), WithRequests(b, b.tab.requests[id := r]), challenged)
  {
    var a', b' := WithRequests(a, a.tab.requests[id := r]), WithRequests(b, b.tab.requests[id := r]);
    forall j | j in a'.tab.requests ensures SameRequest(a'.tab.requests[j], b'.tab.requests[j], j in challenged) {
      assert j != id ==> SameRequest(a.tab.requests[j], b.tab.requests[j], j in challenged);
    }
  }

  /** Worlds that agree keep agreeing when the same is done to everything but the requests. */
  lemma ElsewhereAgrees(a: World, b: World, a': World, challenged: set<nat>)
    requires SameBut(a, b, challenged) && a'.tab.requests == a.tab.requests
    ensures SameBut(a', WithRequests(a', b.tab.requests), challenged)
  {
  }

  lemma FinishAgrees(a: World, b: World, challenged: set<nat>, id: nat, loggedOut: bool)
    requires SameBut(a, b, challenged) && id !in challenged && id in a.tab.requests
    ensures id in b.tab.requests
    ensures SameBut(a.(tab := Finish(a.tab, id, loggedOut)), b.(tab := Finish(b.tab, id, loggedOut)), challenged)
  {
    hide SameBut;
    AgreeAt(a, b, challenged, id);
    var r := a.tab.requests[id].(phase := Finished);
    UpdateAgrees(a, b, challenged, id, r);
    var a1, b1 := WithRequests(a, a.tab.requests[id := r]), WithRequests(b, b.tab.requests[id := r]);
    var a2 := a.(tab := Finish(a.tab, id, loggedOut));
    ElsewhereAgrees(a1, b1, a2, challenged);
  }

  lemma AgreeAt(a: World, b: World, challenged: set<nat>, id: nat)
    requires SameBut(a, b, challenged)
    ensures b == WithRequests(a, b.tab.requests) && (id in a.tab.requests <==> id in b.tab.requests)
    ensures id in a.tab.requests ==> SameRequest(a.tab.requests[id], b.tab.requests[id], id in challenged)
  {
  }

  lemma WaitAgrees(a: World, b: World, challenged: set<nat>, id: nat, r: Request)
    requires SameBut(a, b, challenged) && id !in challenged
    ensures var (ta, ca) := RefreshSession(a.tab);
      var (tb, cb) := RefreshSession(b.tab);
      && ca == cb
      && SameBut(a.(tab := ta.(requests := ta.requests[id := r])), b.(tab := tb.(requests := tb.requests[id := r])), challenged)
  {
    hide SameBut;
    AgreeAt(a, b, challenged, id);
    UpdateAgrees(a, b, challenged, id, r);
    var (ta, ca) := RefreshSession(a.tab);
    ElsewhereAgrees(WithRequests(a, a.tab.requests[id := r]), WithRequests(b, b.tab.requests[id := r]),
                    a.(tab := ta.(requests := ta.requests[id := r])), challenged);
  }

  lemma RequestEventsAgree(a: World, b: World, challenged: set<nat>, e: Event)
    requires SameBut(a, b, challenged) && OfRequest(e) && !(e.Reply? && e.id in challenged)
    requires challenged <= a.tab.requests.Keys
    ensures SameBut(Next(a, e), Next(b, e), challenged)
  {
    hide IsAuthRoute, IsMfaStepUp, Outgoing, SameBut, RefreshSession, Finish;
    AgreeAt(a, b, challenged, e.id);
    match e
    case Start(id, url, mutating, callerKey, newKey) =>
      if id !in a.tab.requests {
        UpdateAgrees(a, b, challenged, id,
                     Outgoing(a.tab.access, Request(url, mutating, callerKey, false, [], None, Flying), newKey));
      }
    case Reply(id, response) =>
      if id in a.tab.requests && a.tab.requests[id].phase == Flying {
        var r, auth := a.tab.requests[id], IsAuthRoute(a.tab.requests[id].url);
        FinishAgrees(a, b, challenged, id, false);
        FinishAgrees(a, b, challenged, id, response.Http? && response.status == 401 && !auth);
        WaitAgrees(a, b, challenged, id, r.(retried := true, phase := Waiting(RefreshSession(a.tab).1)));
      }
    case Resume(id, newKey) =>
      if id in a.tab.requests && a.tab.requests[id].phase.Waiting? && a.tab.requests[id].phase.call in a.tab.settled {
        var r := a.tab.requests[id];
        FinishAgrees(a, b, challenged, id, true);
        UpdateAgrees(a, b, challenged, id, Outgoing(a.tab.access, r.(bearer := a.tab.settled[r.phase.call]), newKey));
      }
    case _ =>
  }

  lemma OtherEventsAgree(a: World, b: World, challenged: set<nat>, e: Event)
    requires SameBut(a, b, challenged) && !(e.Reply? && e.id in challenged)
    requires challenged <= a.tab.requests.Keys
    ensures SameBut(Next(a, e), Next(b, e), challenged)
  {
    hide Next;
    if OfRequest(e) {
      RequestEventsAgree(a, b, challenged, e);
    } else {
      OthersIgnoreRequests(a, b.tab.requests, e);
      assert b == WithRequests(a, b.tab.requests);
      OthersIgnoreRequests(a, a.tab.requests, e);
    }
  }

  lemma SettleKeeps()
    ensures forall t: Tab, rs, call, result :: Settle(t.(requests := rs), call, result) == Settle(t, call, result).(requests := rs)
    ensures forall t: Tab, call, result :: Settle(t, call, result).requests == t.requests
  {
  }

  /**
   * A step-up challenge causes neither a refresh nor a logout, at any point of any run: take every challenge out, with
   * all later replies to those requests, and the refresh calls, tokens, logouts, the server and every other request are
   * the same.
   */
  lemma {:induction false} StepUpIsSilent(w: World, events: seq<Event>)
    ensures SameBut(Play(w, events), Play(w, Unchallenged(w, events)), Challenged(w, events))
    ensures Challenged(w, events) <= Play(w, events).tab.requests.Keys
  {
    hide Next, SameBut, StepsUp;
    if events == [] {
      SameAsItself(w);
    } else {
      var front, e := events[..|events| - 1], events[|events| - 1];
      var a, b, challenged := Play(w, front), Play(w, Unchallenged(w, front)), Challenged(w, front);
      StepUpIsSilent(w, front);
      RequestsStay(a, e);
      if StepsUp(a, e) {
        ChallengeEnds(a, b, challenged, e);
        ChallengedExists(a, e);
      } else if e.Reply? && e.id in challenged {
        LateReplyIgnored(a, b, challenged, e);
        assert challenged + {} == challenged;
      } else {
        OtherEventsAgree(a, b, challenged, e);
        assert (Unchallenged(w, front) + [e])[..|Unchallenged(w, front)|] == Unchallenged(w, front);
        assert challenged + {} == challenged;
      }
    }
  }

  lemma ChallengedExists(w: World, e: Event)
    requires StepsUp(w, e)
    ensures e.id in w.tab.requests
  {
  }

  lemma SameAsItself(w: World)
    ensures SameBut(w, w, {})
  {
  }

  lemma RequestsStay(w: World, e: Event)
    ensures w.tab.requests.Keys <= Next(w, e).tab.requests.Keys
  {
    hide IsAuthRoute, IsMfaStepUp, Outgoing, Serve, Settle;
    SettleKeeps();
  }

  // ---- No replay ----

  predicate GrantPending(t: Tab) {
    && t.inflight.Some? && t.inflight.value in t.calls
    && t.calls[t.inflight.value].Answered? && t.calls[t.inflight.value].reply.Some?
  }

  /** Only the cookie whose replacement is on its way has been rotated. */
  ghost predicate TokensOk(w: World) {
    && !w.server.theft
    && (forall x :: x in w.server.rotated ==> x < w.server.issued)
    && (w.tab.cookie.Some? ==> w.tab.cookie.value < w.server.issued)
    && (w.tab.cookie.Some? && w.tab.cookie.value in w.server.rotated ==> GrantPending(w.tab))
    && (forall c :: c in w.tab.calls ==> CallOk(w.server, w.tab.calls[c]))
  }

  ghost predicate CallOk(s: Server, call: Call) {
    match call
    case Outbound(token) => token.Some? ==> token.value < s.issued && token.value !in s.rotated
    case Answered(reply) => reply.Some? ==> reply.value.token < s.issued && reply.value.token !in s.rotated
  }

  /** The reply of a rotation the server has made is lost on the way back. */
  ghost predicate LosesGrant(w: World, e: Event) {
    e.RefreshLost? && e.call in w.tab.calls && w.tab.calls[e.call].Answered? && w.tab.calls[e.call].reply.Some?
  }

  /** The server handles a request the tab has given up on, and rotates its token or finds it rotated. */
  ghost predicate StragglerCounts(w: World, e: Event) {
    && e.Straggler? && e.call in w.orphans && w.orphans[e.call].Some?
    && var token := w.orphans[e.call].value; token in w.server.rotated || (token < w.server.issued && e.grant)
  }

  /** Every rotation the server makes reaches the tab. */
  ghost predicate GrantsArrive(w: World, events: seq<Event>) {
    forall i :: 0 <= i < |events| ==> ReplyArrives(Play(w, events[..i]), events[i])
  }

  ghost predicate ReplyArrives(w: World, e: Event) {
    !LosesGrant(w, e) && !StragglerCounts(w, e)
  }

  lemma StepKeepsTokens(w: World, e: Event)
    requires SingleFlight(w.tab) && TokensOk(w) && ReplyArrives(w, e)
    ensures TokensOk(Next(w, e))
  {
    hide Outgoing, IsAuthRoute, IsMfaStepUp, Joined;
  }

  /** While the replies of the server's rotations arrive, no interleaving ever presents a rotated token. */
  lemma {:induction false} NoRotatedTokenPresented(w: World, events: seq<Event>)
    requires SingleFlight(w.tab) && AllSentOk(w.tab) && TokensOk(w) && GrantsArrive(w, events)
    ensures TokensOk(Play(w, events)) && !Play(w, events).server.theft
  {
    hide SingleFlight, AllSentOk, Next, ReplyArrives;
    if events != [] {
      var front, last := events[..|events| - 1], events[|events| - 1];
      forall i | 0 <= i < |front| ensures ReplyArrives(Play(w, front[..i]), front[i]) {
        assert front[..i] == events[..i];
      }
      NoRotatedTokenPresented(w, front);
      RunsAreSingleFlight(w, front);
      StepKeepsTokens(Play(w, front), last);
    }
  }

  /** A page load whose cookie is a live token, or none. */
  ghost predicate LoadsWith(cookie: Option<Token>, s: Server) {
    && !s.theft && (forall x :: x in s.rotated ==> x < s.issued)
    && (cookie.Some? ==> cookie.value < s.issued && cookie.value !in s.rotated)
  }

  /** From a page load on: single flight always, and no rotated token while the replies arrive. */
  lemma FromPageLoad(cookie: Option<Token>, s: Server, events: seq<Event>)
    requires LoadsWith(cookie, s)
    ensures var w := Play(World(NewTab(cookie), s, map[]), events);
      && SingleFlight(w.tab) && AllSentOk(w.tab)
      && (GrantsArrive(World(NewTab(cookie), s, map[]), events) ==> !w.server.theft)
  {
    hide GrantsArrive, TokensOk, Play;
    var w := World(NewTab(cookie), s, map[]);
    PageLoad(cookie, s);
    RunsAreSingleFlight(w, events);
    if GrantsArrive(w, events) {
      NoRotatedTokenPresented(w, events);
    }
  }

  lemma PageLoad(cookie: Option<Token>, s: Server)
    requires LoadsWith(cookie, s)
    ensures SingleFlight(NewTab(cookie)) && AllSentOk(NewTab(cookie)) && TokensOk(World(NewTab(cookie), s, map[]))
  {
  }

  /** The condition is needed: after a lost rotation of the tab's own cookie, the next refresh is taken for theft. */
  lemma LostRotationIsTheft(w: World, call: nat, grant: bool, access: Access)
    requires SingleFlight(w.tab) && call in w.tab.calls && LosesGrant(w, RefreshLost(call))
    requires w.tab.cookie.Some? && w.tab.cookie.value in w.server.rotated
    ensures Play(w, [RefreshLost(call), Bootstrap, AtServer(w.tab.started, grant, access)]).server.theft
  {
    var events := [RefreshLost(call), Bootstrap, AtServer(w.tab.started, grant, access)];
    var lost := Next(w, events[0]);
    var again := Next(lost, events[1]);
    assert lost.server == w.server && lost.tab.inflight == None && lost.tab.cookie == w.tab.cookie;
    assert again.tab.calls[w.tab.started] == Outbound(w.tab.cookie) && again.server == w.server;
    assert Next(again, events[2]).server.theft;
    ThreeSteps(w, events[0], events[1], events[2]);
  }

  /**
   * And so is a request handled after the tab gave up on it: it is theft at once if its token has been rotated by then, and
   * otherwise, once granted, it makes the next refresh with the same cookie theft.
   */
  lemma StragglerIsTheft(w: World, call: nat, access: Access)
    requires SingleFlight(w.tab) && StragglerCounts(w, Straggler(call, true))
    ensures w.orphans[call].value in w.server.rotated ==> Next(w, Straggler(call, true)).server.theft
    ensures w.tab.inflight.None? && w.tab.cookie == w.orphans[call] ==>
      Play(w, [Straggler(call, true), Bootstrap, AtServer(w.tab.started, true, access)]).server.theft
  {
    var events := [Straggler(call, true), Bootstrap, AtServer(w.tab.started, true, access)];
    if w.tab.inflight.None? && w.tab.cookie == w.orphans[call] {
      var rotated := Next(w, events[0]);
      var again := Next(rotated, events[1]);
      assert rotated.tab == w.tab && w.tab.cookie.value in rotated.server.rotated;
      assert again.tab.calls[w.tab.started] == Outbound(w.tab.cookie) && again.server == rotated.server;
      ThreeSteps(w, events[0], events[1], events[2]);
    }
  }

  lemma ThreeSteps(w: World, a: Event, b: Event, c: Event)
    ensures Play(w, [a, b, c]) == Next(Next(Next(w, a), b), c)
  {
    hide Next;
    var events := [a, b, c];
    assert events[..2][..1] == events[..1] && events[..1][..0] == [];
    assert Play(w, []) == w && Play(w, events[..1]) == Next(w, a) && Play(w, events[..2]) == Next(Next(w, a), b);
  }

  // ---- No refresh loop ----

  function Retried(t: Tab): set<nat> {
    set id | id in t.requests && t.requests[id].retried
  }

  lemma RetriedAfter(t: Tab, t': Tab, id: nat, r: Request)
    requires t'.requests == t.requests[id := r] && (id in t.requests && t.requests[id].retried ==> r.retried)
    ensures Retried(t) <= Retried(t')
    ensures |Retried(t')| == |Retried(t)| + if r.retried && id !in Retried(t) then 1 else 0
  {
    assert Retried(t') == if r.retried then Retried(t) + {id} else Retried(t);
  }

  lemma SameRetried(t: Tab, t': Tab)
    requires t'.requests == t.requests
    ensures Retried(t') == Retried(t)
  {
  }

  /** One request changes per step, and a refresh starts only with a bootstrap or a first 401. */
  lemma StepRefreshes(w: World, e: Event)
    ensures var t, t' := w.tab, Next(w, e).tab;
      t'.started - t.started <= t'.bootstraps - t.bootstraps + |Retried(t')| - |Retried(t)|
  {
    hide Serve, Outgoing, Retried, IsAuthRoute, IsMfaStepUp;
    var t, t' := w.tab, Next(w, e).tab;
    OutgoingKeepsRetried();
    if (e.Start? || e.Reply? || e.Resume?) && e.id in t'.requests {
      if t' == t {
        SameRetried(t, t');
      } else {
        ReplyRetries(t, e);
        RetriedAfter(t, t', e.id, t'.requests[e.id]);
      }
    } else {
      SameRetried(t, t');
    }
  }

  lemma OutgoingKeepsRetried()
    ensures forall access, r, newKey :: Outgoing(access, r, newKey).retried == r.retried
  {
  }

  lemma ReplyRetries(t: Tab, e: Event)
    ensures forall id :: id in Retried(t) <==> id in t.requests && t.requests[id].retried
  {
  }

  /** Each bootstrap and each request starts at most one refresh, over every run. */
  lemma {:induction false} RefreshesBounded(w: World, events: seq<Event>)
    ensures var t, t' := w.tab, Play(w, events).tab;
      && t'.started - t.started <= t'.bootstraps - t.bootstraps + |Retried(t')| - |Retried(t)|
      && |Retried(t')| <= |t'.requests|
  {
    hide Next, Retried;
    if events != [] {
      RefreshesBounded(w, events[..|events| - 1]);
      StepRefreshes(Play(w, events[..|events| - 1]), events[|events| - 1]);
    }
    RetriedAreRequests(Play(w, events).tab);
  }

  lemma RetriedAreRequests(t: Tab)
    ensures |Retried(t)| <= |t.requests|
  {
    Subset(Retried(t), t.requests.Keys);
  }

  lemma {:induction false} Subset(a: set<nat>, b: set<nat>)
    requires a <= b
    ensures |a| <= |b|
  {
    if a != {} {
      var x :| x in a;
      Subset(a - {x}, b - {x});
    }
  }
}
