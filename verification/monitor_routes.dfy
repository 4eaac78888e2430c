/**
  The monitoring endpoints: the bulk run over every active website
  (`POST /api/monitor`) and the on-demand check of one website
  (`POST /api/monitor/single`).
 */
module MonitorRoutes {
  import opened Common
  import opened Decimal
  import opened Records
  import opened Monitoring
  import opened Api

  /** A handler's response together with the status-check table it leaves behind. */
  datatype Handled = Handled(response: Response, store: seq<StatusCheck>)

  // ---------------------------------------------------------------- bulk run

  /** `findMany({ where: { isActive: true } })`: the active websites, in table order. */
  function ActiveSites(sites: seq<Website>): (active: seq<Website>)
    ensures |active| <= |sites|
    ensures forall i :: 0 <= i < |active| ==> active[i].isActive
    ensures forall w :: w in active <==> w in sites && w.isActive
    ensures forall w :: multiset(active)[w] == (if w.isActive then multiset(sites)[w] else 0)
    decreases |sites|
  {
    if |sites| == 0 then []
    else
      assert sites == [sites[0]] + sites[1..];
      if sites[0].isActive then [sites[0]] + ActiveSites(sites[1..])
      else ActiveSites(sites[1..])
  }

  /**
    What `checkWebsiteStatus` returns for each website, each probed against
    its own network. The bulk run below takes these results as a parameter.
   */
  function Probes(net: Website -> Network): Website -> ProbeResult {
    (w: Website) => CheckWebsiteStatus(w.url, KindName(w.kind), net(w))
  }

  /** How a `monitorWebsite` call with probe result r settles, given the store's answer. */
  function Settle(r: ProbeResult, answer: StoreAnswer): Outcome<ProbeResult> {
    if answer.Accepted? then Fulfilled(r) else Rejected
  }

  /** The record an accepted call for w appends: its probe result, stamped by the store. */
  function RowOf(w: Website, r: ProbeResult, answer: StoreAnswer): (c: StatusCheck)
    requires answer.Accepted?
    ensures RecordsResult(c, w.id, r) && c.checkedAt == answer.checkedAt
  {
    StatusCheck(w.id, r.status, Some(r.responseTime), r.statusCode, r.errorMessage, answer.checkedAt)
  }

  /**
    One `monitorWebsite` call for w settles as Settle says, and when it is
    fulfilled it extends the table by exactly RowOf's row.
   */
  lemma MonitorWebsiteSettles(w: Website, net: Network, answer: StoreAnswer, store: seq<StatusCheck>)
    ensures var m := MonitorWebsite(w.id, w.url, KindName(w.kind), net, store, answer);
      var r := CheckWebsiteStatus(w.url, KindName(w.kind), net);
      && (m.Rejected? ==> Settle(r, answer) == Rejected)
      && (m.Fulfilled? ==>
            && Settle(r, answer) == Fulfilled(m.value.result)
            && m.value.store == store + [RowOf(w, r, answer)])
  {
    var m := MonitorWebsite(w.id, w.url, KindName(w.kind), net, store, answer);
    if m.Fulfilled? {
      var row := RowOf(w, CheckWebsiteStatus(w.url, KindName(w.kind), net), answer);
      assert m.value.store[|store|] == row;
      assert m.value.store == m.value.store[..|store|] + [m.value.store[|store|]];
    }
  }

  /** The settled outcomes of a bulk run, and the table after the fulfilled appends. */
  datatype Run = Run(outcomes: seq<Outcome<ProbeResult>>, store: seq<StatusCheck>)

  function CountFulfilled(outcomes: seq<Outcome<ProbeResult>>): nat
    decreases |outcomes|
  {
    if |outcomes| == 0 then 0
    else (if outcomes[0].Fulfilled? then 1 else 0) + CountFulfilled(outcomes[1..])
  }

  function CountRejected(outcomes: seq<Outcome<ProbeResult>>): nat
    decreases |outcomes|
  {
    if |outcomes| == 0 then 0
    else (if outcomes[0].Rejected? then 1 else 0) + CountRejected(outcomes[1..])
  }

  /** Every settled outcome is counted exactly once, as fulfilled or as rejected. */
  lemma {:induction false} CountsPartition(outcomes: seq<Outcome<ProbeResult>>)
    ensures CountFulfilled(outcomes) + CountRejected(outcomes) == |outcomes|
    decreases |outcomes|
  {
    if |outcomes| > 0 {
      CountsPartition(outcomes[1..]);
    }
  }

  /** The rows of the accepted targets, in target order. */
  function RowsFor(targets: seq<Website>, probe: Website -> ProbeResult, answers: Website -> StoreAnswer): seq<StatusCheck>
    decreases |targets|
  {
    if |targets| == 0 then []
    else
      var w := targets[0];
      (if answers(w).Accepted? then [RowOf(w, probe(w), answers(w))] else []) + RowsFor(targets[1..], probe, answers)
  }

  /**
    `Promise.allSettled(targets.map(monitorWebsite))`: one call per target,
    each settling as MonitorWebsiteSettles shows when probe is Probes(net).
    Outcome i depends only on target i's own probe result and store answer,
    so a rejection never changes another target's outcome; the table grows
    by exactly the rows of the fulfilled calls, in target order.
   */
  function RunAll(
    targets: seq<Website>, probe: Website -> ProbeResult, answers: Website -> StoreAnswer,
    store: seq<StatusCheck>): (run: Run)
    ensures |run.outcomes| == |targets|
    ensures forall i :: 0 <= i < |targets| ==>
      run.outcomes[i] == Settle(probe(targets[i]), answers(targets[i]))
    ensures run.store == store + RowsFor(targets, probe, answers)
    ensures |run.store| == |store| + CountFulfilled(run.outcomes)
    decreases |targets|
  {
    if |targets| == 0 then Run([], store)
    else
      var w := targets[0];
      var rest := targets[1..];
      var first := if answers(w).Accepted? then [RowOf(w, probe(w), answers(w))] else [];
      var tail := RunAll(rest, probe, answers, store + first);
      var run := Run([Settle(probe(w), answers(w))] + tail.outcomes, tail.store);
      assert run.outcomes[1..] == tail.outcomes;
      assert (store + first) + RowsFor(rest, probe, answers) == store + (first + RowsFor(rest, probe, answers));
      run
  }

  /**
    Isolation: changing how the store answers for other websites leaves a
    target's settled outcome as it was.
   */
  lemma RejectionIsolated(
    targets: seq<Website>, probe: Website -> ProbeResult,
    answers: Website -> StoreAnswer, answers': Website -> StoreAnswer,
    store: seq<StatusCheck>, store': seq<StatusCheck>, i: nat)
    requires i < |targets|
    requires answers(targets[i]) == answers'(targets[i])
    ensures RunAll(targets, probe, answers, store).outcomes[i] == RunAll(targets, probe, answers', store').outcomes[i]
  {
  }

  /** Counting the accepted targets of a prefix that starts with the first target. */
  lemma CountAcceptedPrefix(targets: seq<Website>, answers: Website -> StoreAnswer, i: nat)
    requires 0 < i <= |targets|
    ensures CountAccepted(targets[..i], answers)
      == (if answers(targets[0]).Accepted? then 1 else 0) + CountAccepted(targets[1..][..i - 1], answers)
  {
    assert targets[..i][1..] == targets[1..][..i - 1];
  }

  /** Target i's row, when accepted, follows the rows of the accepted targets before it. */
  lemma {:induction false} RowsForIndex(
    targets: seq<Website>, probe: Website -> ProbeResult, answers: Website -> StoreAnswer, i: nat)
    requires i < |targets| && answers(targets[i]).Accepted?
    ensures CountAccepted(targets[..i], answers) < |RowsFor(targets, probe, answers)|
    ensures RowsFor(targets, probe, answers)[CountAccepted(targets[..i], answers)]
      == RowOf(targets[i], probe(targets[i]), answers(targets[i]))
    decreases |targets|
  {
    var w := targets[0];
    var rest := RowsFor(targets[1..], probe, answers);
    if i == 0 {
      assert targets[..0] == [];
      assert RowsFor(targets, probe, answers) == [RowOf(w, probe(w), answers(w))] + rest;
    } else {
      CountAcceptedPrefix(targets, answers, i);
      assert targets[i] == targets[1..][i - 1];
      RowsForIndex(targets[1..], probe, answers, i - 1);
      if answers(w).Accepted? {
        assert RowsFor(targets, probe, answers) == [RowOf(w, probe(w), answers(w))] + rest;
      } else {
        assert RowsFor(targets, probe, answers) == rest;
      }
    }
  }

  /**
    One row per stored call, in target order: the row of target i, when the
    store accepted it, sits right after the rows of the accepted targets
    before it, and holds target i's probe result and timestamp.
   */
  lemma RunAllRowInOrder(
    targets: seq<Website>, probe: Website -> ProbeResult, answers: Website -> StoreAnswer,
    store: seq<StatusCheck>, i: nat)
    requires i < |targets| && answers(targets[i]).Accepted?
    ensures var run := RunAll(targets, probe, answers, store);
      var t := |store| + CountAccepted(targets[..i], answers);
      var w := targets[i];
      && t < |run.store|
      && RecordsResult(run.store[t], w.id, probe(w))
      && run.store[t].checkedAt == answers(w).checkedAt
  {
    RowsForIndex(targets, probe, answers, i);
  }

  /** The summary message of a bulk run over n websites. */
  function MonitoredMessage(n: nat): string {
    "Monitored " + FromNat(n) + " websites"
  }

  /**
    `POST /api/monitor`. No session: 401 and nothing probed. The website
    list failing: 500. Otherwise every active website is probed once and the
    summary counts fulfilled and rejected calls, whether the targets were up
    or down.
   */
  function MonitorAll(
    session: bool, listing: Option<seq<Website>>, net: Website -> Network,
    answers: Website -> StoreAnswer, store: seq<StatusCheck>): (h: Handled)
    ensures !session ==> h == Handled(Unauthorized, store)
    ensures session && listing.None? ==>
      h == Handled(Response(500, ErrorBody("Failed to run monitoring")), store)
    ensures session && listing.Some? ==>
      var active := ActiveSites(listing.value);
      && h.response.status == 200
      && h.response.body.SummaryBody?
      && h.response.body.message == MonitoredMessage(|active|)
      && h.response.body.successful + h.response.body.failed == |active|
      && h.response.body.successful == CountAccepted(active, answers)
      && h.response.body.failed == |active| - CountAccepted(active, answers)
      && h.store == store + RowsFor(active, Probes(net), answers)
      && |h.store| == |store| + h.response.body.successful
      && h.store[..|store|] == store
  {
    if !session then Handled(Unauthorized, store)
    else if listing.None? then Handled(Response(500, ErrorBody("Failed to run monitoring")), store)
    else
      var active := ActiveSites(listing.value);
      var run := RunAll(active, Probes(net), answers, store);
      CountsPartition(run.outcomes);
      SuccessfulCountsAcceptedAppends(active, Probes(net), answers, store);
      Handled(
        Response(200, SummaryBody(MonitoredMessage(|active|), CountFulfilled(run.outcomes), CountRejected(run.outcomes))),
        run.store)
  }

  /** The successful count is the number of active websites whose record the store accepted. */
  lemma {:induction false} SuccessfulCountsAcceptedAppends(
    targets: seq<Website>, probe: Website -> ProbeResult, answers: Website -> StoreAnswer, store: seq<StatusCheck>)
    ensures CountFulfilled(RunAll(targets, probe, answers, store).outcomes) == CountAccepted(targets, answers)
    decreases |targets|
  {
    if |targets| > 0 {
      var w := targets[0];
      var o := RunAll(targets, probe, answers, store).outcomes;
      var next := store + if answers(w).Accepted? then [RowOf(w, probe(w), answers(w))] else [];
      var tail := RunAll(targets[1..], probe, answers, next);
      assert o == [o[0]] + tail.outcomes;
      assert o[1..] == tail.outcomes;
      SuccessfulCountsAcceptedAppends(targets[1..], probe, answers, next);
    }
  }

  /** The number of targets whose store answer accepts the record. */
  function CountAccepted(targets: seq<Website>, answers: Website -> StoreAnswer): nat
    decreases |targets|
  {
    if |targets| == 0 then 0
    else (if answers(targets[0]).Accepted? then 1 else 0) + CountAccepted(targets[1..], answers)
  }

  // ---------------------------------------------------------------- single check

  /** The fields read from the request body; None is a missing or null field. */
  datatype SingleRequest = SingleRequest(websiteId: Option<string>, url: Option<string>, kind: Option<string>)

  /**
    `POST /api/monitor/single`. The session is checked before the body is
    read (401); an unreadable body is 500; a falsy websiteId, url or type is
    400 with no probe; otherwise the body is exactly `monitorWebsite`'s
    result, and a store failure is 500.
   */
  function MonitorSingle(
    session: bool, body: Option<SingleRequest>, net: Network,
    answer: StoreAnswer, store: seq<StatusCheck>): (h: Handled)
    ensures !session ==> h == Handled(Unauthorized, store)
    ensures session && body.None? ==> h == Handled(Response(500, ErrorBody("Failed to monitor website")), store)
    ensures session && body.Some? && !(Truthy(body.value.websiteId) && Truthy(body.value.url) && Truthy(body.value.kind)) ==>
      h == Handled(Response(400, ErrorBody("Website ID, URL, and type are required")), store)
    ensures session && body.Some? && Truthy(body.value.websiteId) && Truthy(body.value.url) && Truthy(body.value.kind) ==>
      var req := body.value;
      var o := MonitorWebsite(req.websiteId.value, req.url.value, req.kind.value, net, store, answer);
      && (o.Fulfilled? ==> h == Handled(Response(200, ProbeBody(o.value.result)), o.value.store))
      && (o.Rejected? ==> h == Handled(Response(500, ErrorBody("Failed to monitor website")), store))
    ensures h.response.status == 200 <==>
      session && body.Some? && Truthy(body.value.websiteId) && Truthy(body.value.url)
      && Truthy(body.value.kind) && answer.Accepted?
  {
    if !session then Handled(Unauthorized, store)
    else if body.None? then Handled(Response(500, ErrorBody("Failed to monitor website")), store)
    else
      var req := body.value;
      if !Truthy(req.websiteId) || !Truthy(req.url) || !Truthy(req.kind) then
        Handled(Response(400, ErrorBody("Website ID, URL, and type are required")), store)
      else
        match MonitorWebsite(req.websiteId.value, req.url.value, req.kind.value, net, store, answer)
        case Fulfilled(m) => Handled(Response(200, ProbeBody(m.result)), m.store)
        case Rejected => Handled(Response(500, ErrorBody("Failed to monitor website")), store)
  }
}
