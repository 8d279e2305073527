/** The domain operations as traces of observable events. Each operation is
    a chain of API calls; the server's replies are an input consumed in call
    order. When the replies run out, the trace ends with the request still
    waiting for its reply. A rejection, or an uncaught exception that halts
    the process, ends the chain. */
module Operations {
  import opened Options
  import opened Text
  import opened Json
  import opened Api
  import opened Lookup
  import opened Endpoints

  function StopRequest(server: ServerSettings, id: Option<Json>): Request {
    BuildRequest(PATCH, "timesheets/" + JsString(id) + "/stop", server, None, None)
  }

  function RestartRequest(server: ServerSettings, id: Option<Json>): Request {
    BuildRequest(PATCH, "timesheets/" + JsString(id) + "/restart", server, None, None)
  }

  function ListRequest(server: ServerSettings, endpoint: string, filter: Option<Json>): Request {
    BuildRequest(GET, endpoint, server, filter, None)
  }

  /** The request body of `kimaiStart`. `JSON.stringify` leaves out a
      property whose value is undefined. */
  function StartBody(now: string, project: Option<Json>, activity: Option<Json>): (body: Json)
    ensures body.JObj?
    ensures Get(body, "begin") == Some(JStr(now))
    ensures Get(body, "project") == project
    ensures Get(body, "activity") == activity
    ensures forall k :: 0 <= k < |body.fields| ==> body.fields[k].0 in {"begin", "project", "activity"}
  {
    var fields := [("begin", JStr(now))]
                  + (if project.Some? then [("project", project.value)] else [])
                  + (if activity.Some? then [("activity", activity.value)] else []);
    assert fields[0] == ("begin", JStr(now));
    assert "begin" != "project" && "activity" != "project" by {
      assert "begin"[0] != "project"[0] && "activity"[0] != "project"[0];
    }
    assert project.Some? ==> fields[1] == ("project", project.value) && LastIndexOf(fields, "project") == Some(1);
    JObj(fields)
  }

  function StartRequest(server: ServerSettings, now: string, project: Option<Json>, activity: Option<Json>): Request {
    BuildRequest(POST, TimesheetsEndpoint, server, None, Some(StartBody(now, project, activity)))
  }

  /** One call whose reply may not have arrived yet. */
  function Call(request: Request, replies: seq<Reply>): (events: seq<Event>)
    ensures Sends(events) == [request]
  {
    if replies == [] then
      assert Sends([Send(request)]) == [request] + Sends([]);
      [Send(request)]
    else CallEvents(request, replies[0])
  }

  /** `kimaiList` without printing: the GET, and on a rejection the
      "Error: " line of its `catch`. */
  function ListEvents(request: Request, reply: Reply): (events: seq<Event>)
    ensures Sends(events) == [request]
    ensures !Settle(reply).Rejected? ==> events == [Send(request)]
    ensures Settle(reply).Rejected? && Settle(reply).reason.TransportError? ==>
              events == [Send(request), Print("Error: " + Settle(reply).reason.cause)]
    ensures Settle(reply).Rejected? && Settle(reply).reason.ServerError? ==>
              && |events| == 5
              && events[..4] == CallEvents(request, reply)
              && events[4] == Print("Error: " + JsString(Some(Settle(reply).reason.message)))
  {
    var s := Settle(reply);
    var tail := if s.Rejected? then [Print("Error: " + RejectionText(s.reason))] else [];
    SendsAppend(CallEvents(request, reply), tail);
    CallEvents(request, reply) + tail
  }

  /** The array a list call resolved with, if it resolved. */
  function ListResult(reply: Reply): Option<seq<Json>> {
    match Settle(reply)
    case Resolved(payload) => Some(Elements(payload))
    case _ => None
  }

  /** What the loops over a list payload see through `length` and indexing:
      the items of an array, the one-character strings of a string, and
      nothing for any other value, whose `length` is undefined. */
  function Elements(payload: Json): (elements: seq<Json>)
    ensures payload.JArr? ==> elements == payload.items
    ensures payload.JStr? ==> |elements| == |payload.s|
    ensures !payload.JArr? && !payload.JStr? ==> elements == []
  {
    if payload.JArr? then payload.items
    else if payload.JStr? then Characters(payload.s)
    else []
  }

  /** The characters of a string, each as a one-character string. */
  function Characters(s: string): (chars: seq<Json>)
    ensures |chars| == |s|
  {
    if s == [] then [] else [JStr([s[0]])] + Characters(s[1..])
  }

  /** Element `k` of a string payload is its `k`-th character, as a string. */
  lemma {:induction false} ElementOfString(s: string, k: nat)
    requires k < |s|
    ensures Elements(JStr(s))[k] == JStr([s[k]])
    decreases |s|
  {
    if k > 0 {
      ElementOfString(s[1..], k - 1);
    }
  }

  /** What `callKimaiStop` prints for a stop that resolved with `payload`:
      `console.log('Stopped: ', jsl.id)`. */
  function StoppedLine(payload: Json): string
    requires !payload.JNull?
  {
    SpaceJoin(["Stopped: ", JsString(Get(payload, "id"))])
  }

  /** The stop requests `callKimaiStop` can reach: one per entry, in list
      order, up to the first `null` entry, whose `element.id` throws. */
  function StopTargets(server: ServerSettings, entries: seq<Json>): (targets: seq<Request>)
    ensures |targets| <= |entries|
    ensures forall k :: 0 <= k < |targets| ==> !entries[k].JNull?
    ensures forall k :: 0 <= k < |targets| ==> targets[k] == StopRequest(server, Get(entries[k], "id"))
    ensures |targets| < |entries| ==> entries[|targets|].JNull?
    decreases |entries|
  {
    if entries == [] || entries[0].JNull? then []
    else
      var tail := entries[1..];
      var rest := StopTargets(server, tail);
      assert forall k :: 0 <= k < |rest| ==> tail[k] == entries[k + 1];
      [StopRequest(server, Get(entries[0], "id"))] + rest
  }

  /** One stop of `callKimaiStop`: the PATCH, what settling its reply
      prints, and "Stopped:" with the id when it resolved. */
  function StopStep(target: Request, reply: Reply): (events: seq<Event>)
    ensures Sends(events) == [target]
    ensures Settle(reply).Resolved? ==> events == [Send(target), Print(StoppedLine(reply.payload))]
  {
    var s := Settle(reply);
    var tail := if s.Resolved? then [Print(StoppedLine(s.value))] else [];
    SendsAppend(CallEvents(target, reply), tail);
    assert Sends(tail) == [];
    if s.Resolved? then
      assert ReplyLines(reply) == [];
      CallEvents(target, reply) + tail
    else
      CallEvents(target, reply) + tail
  }

  /** `callKimaiStop` over its targets: each request is sent only after the
      previous one resolved. */
  function StopChain(targets: seq<Request>, replies: seq<Reply>): (events: seq<Event>)
    ensures targets == [] ==> events == []
    ensures targets != [] ==> |events| > 0 && events[0] == Send(targets[0])
    ensures targets != [] && replies == [] ==> events == [Send(targets[0])]
    ensures targets != [] && replies != [] && !Settle(replies[0]).Resolved? ==> Sends(events) == [targets[0]]
    ensures |Sends(events)| <= |targets|
    ensures |Sends(events)| <= |replies| + 1
    decreases |targets|
  {
    if targets == [] then []
    else if replies == [] then
      assert Sends([Send(targets[0])]) == [targets[0]] + Sends([]);
      [Send(targets[0])]
    else
      var step := StopStep(targets[0], replies[0]);
      var rest := if Settle(replies[0]).Resolved? then StopChain(targets[1..], replies[1..]) else [];
      SendsAppend(step, rest);
      assert step == CallEvents(targets[0], replies[0]) + (step[|CallEvents(targets[0], replies[0])|..]);
      step + rest
  }

  /** The chain ends at the first stop that does not resolve: when the
      `k`-th reply is the first that does not, exactly the first `k + 1`
      targets are sent, and none after. */
  lemma {:induction false} StopChainEndsAtFailure(targets: seq<Request>, replies: seq<Reply>, k: nat)
    requires k < |targets| && k < |replies| && !Settle(replies[k]).Resolved?
    requires forall j :: 0 <= j < k ==> Settle(replies[j]).Resolved?
    ensures Sends(StopChain(targets, replies)) == targets[..k + 1]
    decreases k
  {
    if k == 0 {
      assert Sends(StopChain(targets, replies)) == [targets[0]];
      assert targets[..1] == [targets[0]];
    } else {
      assert Settle(replies[0]).Resolved?;
      var step := StopStep(targets[0], replies[0]);
      var later := replies[1..];
      var rest := StopChain(targets[1..], later);
      assert StopChain(targets, replies) == step + rest;
      SendsAppend(step, rest);
      assert later[k - 1] == replies[k];
      assert forall j :: 0 <= j < k - 1 ==> later[j] == replies[j + 1];
      StopChainEndsAtFailure(targets[1..], later, k - 1);
      ConsPrefix(targets, k);
    }
  }

  /** `kimaiStop`: with a truthy id, one PATCH to stop it; otherwise the
      active list is fetched and either reported empty or stopped entry by
      entry. */
  function Stop(server: ServerSettings, id: Option<Json>, replies: seq<Reply>): (events: seq<Event>)
    ensures Truthy(id) ==> Sends(events) == [StopRequest(server, id)]
    ensures !Truthy(id) ==> |events| > 0 && events[0] == Send(ListRequest(server, ActiveEndpoint, None))
  {
    if Truthy(id) then Call(StopRequest(server, id), replies)
    else
      var request := ListRequest(server, ActiveEndpoint, None);
      if replies == [] then [Send(request)]
      else
        ListEvents(request, replies[0])
        + match ListResult(replies[0])
          case None => []
          case Some(entries) =>
            if |entries| > 0 then StopChain(StopTargets(server, entries), replies[1..]) else [Print(NoActiveLine)]
  }

  /** With an id, stopping sends exactly one request: the PATCH that stops
      that id, whatever the server replies. */
  lemma StopWithIdSendsOnePatch(server: ServerSettings, id: Option<Json>, replies: seq<Reply>)
    requires Truthy(id)
    ensures Sends(Stop(server, id, replies)) == [StopRequest(server, id)]
    ensures StopRequest(server, id).verb == PATCH
  {
  }

  /** With no id and an empty active list, the client prints the message and
      sends nothing after the one GET. */
  lemma StopWithNoneActive(server: ServerSettings, id: Option<Json>, replies: seq<Reply>)
    requires !Truthy(id)
    requires |replies| >= 1 && replies[0] == Delivered(JArr([]))
    ensures Stop(server, id, replies) == [Send(ListRequest(server, ActiveEndpoint, None)), Print(NoActiveLine)]
  {
    var request := ListRequest(server, ActiveEndpoint, None);
    assert ListEvents(request, replies[0]) == [Send(request)];
  }

  /** Whatever the server replies, the stops sent are a prefix of the
      targets, in order: never out of order, never repeated, never more than
      one per entry. */
  lemma {:induction false} StopChainSendsPrefix(targets: seq<Request>, replies: seq<Reply>)
    ensures exists n :: 0 <= n <= |targets| && Sends(StopChain(targets, replies)) == targets[..n]
    decreases |targets|
  {
    if targets == [] {
      assert Sends(StopChain(targets, replies)) == targets[..0];
    } else if replies == [] {
      assert Sends([Send(targets[0])]) == [targets[0]] + Sends([]);
      assert Sends(StopChain(targets, replies)) == targets[..1];
    } else {
      var step := StopStep(targets[0], replies[0]);
      if Settle(replies[0]).Resolved? {
        var rest := StopChain(targets[1..], replies[1..]);
        StopChainSendsPrefix(targets[1..], replies[1..]);
        var m :| 0 <= m <= |targets[1..]| && Sends(rest) == targets[1..][..m];
        assert StopChain(targets, replies) == step + rest;
        SendsAppend(step, rest);
        ConsPrefix(targets, m);
        assert Sends(StopChain(targets, replies)) == targets[..m + 1];
      } else {
        assert StopChain(targets, replies) == step + [];
        assert step + [] == step;
        assert Sends(StopChain(targets, replies)) == targets[..1];
      }
    }
  }

  /** Without an id, stopping sends the GET of the active list and nothing
      more unless that list arrived. */
  lemma StopWithoutListSendsOnlyGet(server: ServerSettings, id: Option<Json>, replies: seq<Reply>)
    requires !Truthy(id)
    requires replies == [] || ListResult(replies[0]).None?
    ensures Sends(Stop(server, id, replies)) == [ListRequest(server, ActiveEndpoint, None)]
  {
    var request := ListRequest(server, ActiveEndpoint, None);
    if replies == [] {
      assert Sends([Send(request)]) == [request] + Sends([]);
    } else {
      var head := ListEvents(request, replies[0]);
      assert Stop(server, id, replies) == head + [];
      SendsAppend(head, []);
    }
  }

  /** Without an id, once the active list arrives the client sends its GET
      and then a prefix of the stops for its entries, in list order. */
  lemma StopSendsActiveListThenTargets(server: ServerSettings, id: Option<Json>, replies: seq<Reply>, entries: seq<Json>)
    requires !Truthy(id)
    requires replies != [] && ListResult(replies[0]) == Some(entries)
    ensures var targets := StopTargets(server, entries);
            exists n :: && 0 <= n <= |targets|
                        && Sends(Stop(server, id, replies)) == [ListRequest(server, ActiveEndpoint, None)] + targets[..n]
  {
    var request := ListRequest(server, ActiveEndpoint, None);
    var targets := StopTargets(server, entries);
    StopSendsActiveListThenChain(server, id, replies, entries);
    StopChainSendsPrefix(targets, replies[1..]);
    var n :| 0 <= n <= |targets| && Sends(StopChain(targets, replies[1..])) == targets[..n];
    assert Sends(Stop(server, id, replies)) == [request] + targets[..n];
  }

  /** Without an id, once the active list arrives the client sends its GET
      and then what the chain of stops over its entries sends. */
  lemma StopSendsActiveListThenChain(server: ServerSettings, id: Option<Json>, replies: seq<Reply>, entries: seq<Json>)
    requires !Truthy(id)
    requires replies != [] && ListResult(replies[0]) == Some(entries)
    ensures Sends(Stop(server, id, replies))
         == [ListRequest(server, ActiveEndpoint, None)] + Sends(StopChain(StopTargets(server, entries), replies[1..]))
  {
    var request := ListRequest(server, ActiveEndpoint, None);
    var head := ListEvents(request, replies[0]);
    var targets := StopTargets(server, entries);
    if |entries| > 0 {
      var chain := StopChain(targets, replies[1..]);
      assert Stop(server, id, replies) == head + chain;
      SendsAppend(head, chain);
    } else {
      assert Stop(server, id, replies) == head + [Print(NoActiveLine)];
      SendsAppend(head, [Print(NoActiveLine)]);
      assert Sends([Print(NoActiveLine)]) == [] + Sends([]);
      assert StopChain(targets, replies[1..]) == [];
    }
  }

  lemma IndexAfterPair<T>(s: seq<T>, a: T, b: T, rest: seq<T>, k: nat)
    requires s == [a, b] + rest
    requires 1 <= k && 2 * k + 1 < |s|
    ensures s[2 * k] == rest[2 * (k - 1)] && s[2 * k + 1] == rest[2 * (k - 1) + 1]
  {
  }

  lemma IndexAfterOne<T>(s: seq<T>, a: T, rest: seq<T>, k: nat)
    requires s == [a] + rest
    requires 2 + 2 * k < |s|
    ensures s[1 + 2 * k] == rest[2 * k] && s[2 + 2 * k] == rest[2 * k + 1]
  {
  }

  lemma ConsPrefix<T>(s: seq<T>, m: nat)
    requires m < |s|
    ensures [s[0]] + s[1..][..m] == s[..m + 1]
  {
    assert forall i :: 0 <= i < m + 1 ==> ([s[0]] + s[1..][..m])[i] == s[..m + 1][i];
  }

  /** A server that resolves the first `n` calls without reporting an error. */
  predicate AllResolve(replies: seq<Reply>, n: nat) {
    && n <= |replies|
    && forall k :: 0 <= k < n ==> Settle(replies[k]).Resolved?
  }

  /** When every stop resolves, each target is sent in order, each followed
      by its "Stopped:" line. */
  lemma {:induction false} StopChainAllResolve(targets: seq<Request>, replies: seq<Reply>)
    requires AllResolve(replies, |targets|)
    ensures var events := StopChain(targets, replies);
            && |events| == 2 * |targets|
            && forall k :: 0 <= k < |targets| ==>
                 && events[2 * k] == Send(targets[k])
                 && events[2 * k + 1] == Print(StoppedLine(replies[k].payload))
    decreases |targets|
  {
    if targets != [] {
      var rest := StopChain(targets[1..], replies[1..]);
      StopChainAllResolve(targets[1..], replies[1..]);
      var events := StopChain(targets, replies);
      var step := StopStep(targets[0], replies[0]);
      assert Settle(replies[0]).Resolved?;
      assert step == [Send(targets[0]), Print(StoppedLine(replies[0].payload))];
      assert events == step + rest;
      forall k | 1 <= k < |targets|
        ensures events[2 * k] == Send(targets[k])
        ensures events[2 * k + 1] == Print(StoppedLine(replies[k].payload))
      {
        IndexAfterPair(events, step[0], step[1], rest, k);
        assert targets[1..][k - 1] == targets[k];
        assert replies[1..][k - 1] == replies[k];
      }
    }
  }

  /** Stopping all with N active entries and a server that resolves every
      call: the GET, then for each entry in list order its PATCH and its
      "Stopped:" line. */
  lemma StopAllInListOrder(server: ServerSettings, entries: seq<Json>, replies: seq<Reply>)
    requires |entries| > 0 && forall k :: 0 <= k < |entries| ==> !entries[k].JNull?
    requires |replies| > |entries| && replies[0] == Delivered(JArr(entries))
    requires AllResolve(replies[1..], |entries|)
    ensures var events := Stop(server, None, replies);
            && |events| == 1 + 2 * |entries|
            && events[0] == Send(ListRequest(server, ActiveEndpoint, None))
            && forall k :: 0 <= k < |entries| ==>
                 && events[1 + 2 * k] == Send(StopRequest(server, Get(entries[k], "id")))
                 && events[2 + 2 * k] == Print(StoppedLine(replies[1 + k].payload))
  {
    var request := ListRequest(server, ActiveEndpoint, None);
    var targets := StopTargets(server, entries);
    assert |targets| == |entries|;
    assert ListResult(replies[0]) == Some(entries);
    assert ListEvents(request, replies[0]) == [Send(request)];
    StopChainAllResolve(targets, replies[1..]);
    var chain := StopChain(targets, replies[1..]);
    var events := Stop(server, None, replies);
    assert events == [Send(request)] + chain;
    forall k | 0 <= k < |entries|
      ensures events[1 + 2 * k] == Send(StopRequest(server, Get(entries[k], "id")))
      ensures events[2 + 2 * k] == Print(StoppedLine(replies[1 + k].payload))
    {
      IndexAfterOne(events, Send(request), chain, k);
      assert replies[1..][k] == replies[1 + k];
    }
  }

  /** `kimaiRestart`: one PATCH to restart the given id; nothing is printed
      when it resolves. The id is not checked, so a missing one yields
      "timesheets/undefined/restart". */
  function Restart(server: ServerSettings, id: Option<Json>, replies: seq<Reply>): (events: seq<Event>)
    ensures Sends(events) == [RestartRequest(server, id)]
    ensures |replies| > 0 && Settle(replies[0]).Resolved? ==> events == [Send(RestartRequest(server, id))]
  {
    Call(RestartRequest(server, id), replies)
  }

  /** `kimaiStart`: one POST creating a measurement that begins `now`, then
      "Started: " and the id the server assigned. */
  function Start(server: ServerSettings, now: string, project: Option<Json>, activity: Option<Json>,
                 replies: seq<Reply>): (events: seq<Event>)
    ensures Sends(events) == [StartRequest(server, now, project, activity)]
    ensures |replies| > 0 && Settle(replies[0]).Resolved? ==>
              events == [Send(StartRequest(server, now, project, activity)),
                         Print("Started: " + JsString(Get(replies[0].payload, "id")))]
  {
    var request := StartRequest(server, now, project, activity);
    if replies == [] then Call(request, replies)
    else
      var s := Settle(replies[0]);
      var tail := if s.Resolved? then [Print("Started: " + JsString(Get(s.value, "id")))] else [];
      SendsAppend(CallEvents(request, replies[0]), tail);
      assert Sends(tail) == [];
      CallEvents(request, replies[0]) + tail
  }

  /** The second half of scripted `start`, once the project id is known:
      look the activity up in the unfiltered activity list, then start. */
  function StartWithProject(server: ServerSettings, now: string, projectId: Option<Json>, activity: Option<string>,
                            replies: seq<Reply>): (events: seq<Event>)
    ensures var request := ListRequest(server, ActivitiesEndpoint, None);
            || Sends(events) == [request]
            || (&& |replies| > 0 && ListResult(replies[0]).Some?
                && FindId(ListResult(replies[0]).value, activity).Found?
                && Sends(events) == [request, StartRequest(server, now, projectId,
                                                           FindId(ListResult(replies[0]).value, activity).id)])
    ensures |replies| > 0 && ListResult(replies[0]).Some? && FindId(ListResult(replies[0]).value, activity).Found? ==>
              Sends(events) == [ListRequest(server, ActivitiesEndpoint, None),
                                StartRequest(server, now, projectId, FindId(ListResult(replies[0]).value, activity).id)]
  {
    var request := ListRequest(server, ActivitiesEndpoint, None);
    if replies == [] then Call(request, replies)
    else
      var tail :=
        match ListResult(replies[0])
        case None => []
        case Some(activities) =>
          var lookup := FindId(activities, activity);
          if lookup.Found? then Start(server, now, projectId, lookup.id, replies[1..]) else [];
      SendsAppend(ListEvents(request, replies[0]), tail);
      ListEvents(request, replies[0]) + tail
  }

  /** Scripted `start [project] [activity]`: look both names up with
      `findId` (each over an unfiltered list), then start. A failed lookup
      ends the chain. The POST is sent only when both lookups found an
      element, and it carries the ids they found. */
  function StartByNames(server: ServerSettings, now: string, project: Option<string>, activity: Option<string>,
                        replies: seq<Reply>): (events: seq<Event>)
    ensures var request := ListRequest(server, ProjectsEndpoint, None);
            && |Sends(events)| >= 1 && Sends(events)[0] == request
            && (|replies| > 0 && ListResult(replies[0]).Some? && !FindId(ListResult(replies[0]).value, project).Found?
                ==> Sends(events) == [request])
    ensures |replies| > 0 && ListResult(replies[0]).Some? && FindId(ListResult(replies[0]).value, project).Found? ==>
              Sends(events) == [ListRequest(server, ProjectsEndpoint, None)]
                               + Sends(StartWithProject(server, now, FindId(ListResult(replies[0]).value, project).id,
                                                        activity, replies[1..]))
  {
    var request := ListRequest(server, ProjectsEndpoint, None);
    if replies == [] then Call(request, replies)
    else
      var tail :=
        match ListResult(replies[0])
        case None => []
        case Some(projects) =>
          var lookup := FindId(projects, project);
          if lookup.Found? then StartWithProject(server, now, lookup.id, activity, replies[1..]) else [];
      SendsAppend(ListEvents(request, replies[0]), tail);
      ListEvents(request, replies[0]) + tail
  }

  /** The second half of scripted `start` when the activity list arrives:
      the GET, and the POST only when the activity was found. */
  lemma StartWithProjectRequests(server: ServerSettings, now: string, projectId: Option<Json>, activity: string,
                                 activities: seq<Json>, replies: seq<Reply>)
    requires |replies| >= 1 && replies[0] == Delivered(JArr(activities))
    ensures var events := StartWithProject(server, now, projectId, Some(activity), replies);
            var lookup := FindId(activities, Some(activity));
            && (lookup.Found? ==> Sends(events) == [ListRequest(server, ActivitiesEndpoint, None),
                                                    StartRequest(server, now, projectId, lookup.id)])
            && (!lookup.Found? ==> Sends(events) == [ListRequest(server, ActivitiesEndpoint, None)])
  {
    assert ListResult(replies[0]) == Some(activities);
  }

  /** The requests of scripted `start` when both lists arrive: the projects
      GET; the activities GET only when the project was found; the POST only
      when both were, carrying the ids `findId` found. */
  lemma StartByNamesRequests(server: ServerSettings, now: string, project: string, activity: string,
                             projects: seq<Json>, activities: seq<Json>, replies: seq<Reply>)
    requires |replies| >= 2
    requires replies[0] == Delivered(JArr(projects)) && replies[1] == Delivered(JArr(activities))
    ensures var events := StartByNames(server, now, Some(project), Some(activity), replies);
            var p := FindId(projects, Some(project));
            var a := FindId(activities, Some(activity));
            && (p.Found? && a.Found? ==>
                  Sends(events) == [ListRequest(server, ProjectsEndpoint, None),
                                    ListRequest(server, ActivitiesEndpoint, None),
                                    StartRequest(server, now, p.id, a.id)])
            && (p.Found? && !a.Found? ==>
                  Sends(events) == [ListRequest(server, ProjectsEndpoint, None), ListRequest(server, ActivitiesEndpoint, None)])
            && (!p.Found? ==> Sends(events) == [ListRequest(server, ProjectsEndpoint, None)])
  {
    StartByNamesFirstList(server, now, project, Some(activity), projects, replies);
    StartByNamesSecondList(server, now, project, activity, projects, activities, replies);
  }

  /** Scripted `start` when both lists arrive and the project is found:
      what follows the projects GET is what the second half sends. */
  lemma StartByNamesSecondList(server: ServerSettings, now: string, project: string, activity: string,
                               projects: seq<Json>, activities: seq<Json>, replies: seq<Reply>)
    requires |replies| >= 2
    requires replies[0] == Delivered(JArr(projects)) && replies[1] == Delivered(JArr(activities))
    ensures var p := FindId(projects, Some(project));
            var a := FindId(activities, Some(activity));
            var sent := Sends(StartByNames(server, now, Some(project), Some(activity), replies));
            && (p.Found? && a.Found? ==> sent == [ListRequest(server, ProjectsEndpoint, None),
                                                  ListRequest(server, ActivitiesEndpoint, None),
                                                  StartRequest(server, now, p.id, a.id)])
            && (p.Found? && !a.Found? ==> sent == [ListRequest(server, ProjectsEndpoint, None),
                                                   ListRequest(server, ActivitiesEndpoint, None)])
  {
    var p := FindId(projects, Some(project));
    if !p.Found? {
      return;
    }
    var a := FindId(activities, Some(activity));
    var rest := replies[1..];
    assert rest[0] == replies[1];
    StartByNamesFirstList(server, now, project, Some(activity), projects, replies);
    StartWithProjectRequests(server, now, p.id, activity, activities, rest);
    var second := Sends(StartWithProject(server, now, p.id, Some(activity), rest));
    var first := ListRequest(server, ProjectsEndpoint, None);
    var sent := Sends(StartByNames(server, now, Some(project), Some(activity), replies));
    assert sent == [first] + second;
    if a.Found? {
      PrependOne(first, second, ListRequest(server, ActivitiesEndpoint, None), StartRequest(server, now, p.id, a.id));
    } else {
      assert second == [ListRequest(server, ActivitiesEndpoint, None)];
    }
  }

  lemma PrependOne<T>(x: T, s: seq<T>, y: T, z: T)
    requires s == [y, z]
    ensures [x] + s == [x, y, z]
  {
  }

  /** Scripted `start` once the project list arrives: only the projects GET
      when the project is not found, otherwise that GET followed by what the
      second half sends. */
  lemma StartByNamesFirstList(server: ServerSettings, now: string, project: string, activity: Option<string>,
                              projects: seq<Json>, replies: seq<Reply>)
    requires |replies| >= 1 && replies[0] == Delivered(JArr(projects))
    ensures var events := StartByNames(server, now, Some(project), activity, replies);
            var p := FindId(projects, Some(project));
            && (p.Found? ==> Sends(events) == [ListRequest(server, ProjectsEndpoint, None)]
                                              + Sends(StartWithProject(server, now, p.id, activity, replies[1..])))
            && (!p.Found? ==> Sends(events) == [ListRequest(server, ProjectsEndpoint, None)])
  {
    assert ListResult(replies[0]) == Some(projects);
  }
}
