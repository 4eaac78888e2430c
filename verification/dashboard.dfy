/**
  The dashboard page's derivations: the overall statistics cards, where the
  website form is submitted, and the request that pauses or resumes a
  website.
 */
module Dashboard {
  import opened Common
  import opened Decimal
  import opened Records

  // ---------------------------------------------------------------- statistics

  datatype Stats = Stats(total: nat, active: nat, up: nat, down: nat, avgResponseTime: int)

  /** The website's first (latest) check exists and has status s. */
  predicate LatestIs(v: WebsiteView, s: Status) {
    |v.statusChecks| > 0 && v.statusChecks[0].status == s
  }

  /** The latest check's response time is truthy: present and not zero. */
  predicate HasTiming(v: WebsiteView) {
    |v.statusChecks| > 0 && v.statusChecks[0].responseTime.Some? && v.statusChecks[0].responseTime.value != 0
  }

  /** The number of active websites: none exactly when no website is active, all exactly when every one is. */
  function CountActive(ws: seq<WebsiteView>): (n: nat)
    ensures n <= |ws|
    ensures n == 0 <==> forall i :: 0 <= i < |ws| ==> !ws[i].site.isActive
    ensures n == |ws| <==> forall i :: 0 <= i < |ws| ==> ws[i].site.isActive
    decreases |ws|
  {
    if |ws| == 0 then 0
    else
      assert forall i :: 1 <= i < |ws| ==> ws[1..][i - 1] == ws[i];
      (if ws[0].site.isActive then 1 else 0) + CountActive(ws[1..])
  }

  /** The number of websites whose latest check has status s: none exactly when no latest check has it, all exactly when every one has. */
  function CountLatest(ws: seq<WebsiteView>, s: Status): (n: nat)
    ensures n <= |ws|
    ensures n == 0 <==> forall i :: 0 <= i < |ws| ==> !LatestIs(ws[i], s)
    ensures n == |ws| <==> forall i :: 0 <= i < |ws| ==> LatestIs(ws[i], s)
    decreases |ws|
  {
    if |ws| == 0 then 0
    else
      assert forall i :: 1 <= i < |ws| ==> ws[1..][i - 1] == ws[i];
      (if LatestIs(ws[0], s) then 1 else 0) + CountLatest(ws[1..], s)
  }

  function CountNoData(ws: seq<WebsiteView>): (n: nat)
    decreases |ws|
  {
    if |ws| == 0 then 0 else (if |ws[0].statusChecks| == 0 then 1 else 0) + CountNoData(ws[1..])
  }

  /** Up, down and no data partition the websites: one without checks is neither up nor down. */
  lemma {:induction false} StatusPartition(ws: seq<WebsiteView>)
    ensures CountLatest(ws, Up) + CountLatest(ws, Down) + CountNoData(ws) == |ws|
    decreases |ws|
  {
    if |ws| > 0 {
      StatusPartition(ws[1..]);
    }
  }

  /** The latest check's response time of a website that has one. */
  function TimingOf(v: WebsiteView): nat
    requires HasTiming(v)
  {
    v.statusChecks[0].responseTime.value
  }

  /** The number of websites whose latest check has a (truthy) response time. */
  function CountTimed(ws: seq<WebsiteView>): nat
    decreases |ws|
  {
    if |ws| == 0 then 0 else (if HasTiming(ws[0]) then 1 else 0) + CountTimed(ws[1..])
  }

  /** The latest response times that the average covers, in website order. */
  function Timings(ws: seq<WebsiteView>): (ts: seq<nat>)
    ensures |ts| <= |ws|
    ensures |ts| == CountTimed(ws)
    ensures forall i :: 0 <= i < |ts| ==> ts[i] > 0
    ensures |ts| == 0 <==> forall i :: 0 <= i < |ws| ==> !HasTiming(ws[i])
    decreases |ws|
  {
    if |ws| == 0 then []
    else
      var rest := Timings(ws[1..]);
      assert forall i :: 1 <= i < |ws| ==> ws[i] == ws[1..][i - 1];
      if HasTiming(ws[0]) then [TimingOf(ws[0])] + rest else rest
  }

  /** Counting the timed websites of a prefix that starts with the first website. */
  lemma CountTimedPrefix(ws: seq<WebsiteView>, i: nat)
    requires 0 < i <= |ws|
    ensures CountTimed(ws[..i]) == (if HasTiming(ws[0]) then 1 else 0) + CountTimed(ws[1..][..i - 1])
  {
    assert ws[..i][1..] == ws[1..][..i - 1];
  }

  /**
    Each website with a time contributes exactly its own latest time, at the
    position after the times of the timed websites before it; with
    |Timings(ws)| == CountTimed(ws) this fixes every element.
   */
  lemma {:induction false} TimingsIndex(ws: seq<WebsiteView>, i: nat)
    requires i < |ws| && HasTiming(ws[i])
    ensures CountTimed(ws[..i]) < |Timings(ws)|
    ensures Timings(ws)[CountTimed(ws[..i])] == TimingOf(ws[i])
    decreases |ws|
  {
    var rest := Timings(ws[1..]);
    if i == 0 {
      assert ws[..0] == [];
    } else {
      CountTimedPrefix(ws, i);
      assert ws[i] == ws[1..][i - 1];
      TimingsIndex(ws[1..], i - 1);
      if HasTiming(ws[0]) {
        assert Timings(ws) == [TimingOf(ws[0])] + rest;
      } else {
        assert Timings(ws) == rest;
      }
    }
  }

  function Sum(ts: seq<nat>): nat
    decreases |ts|
  {
    if |ts| == 0 then 0 else ts[0] + Sum(ts[1..])
  }

  /** The sum of values between lo and hi lies between |ts| * lo and |ts| * hi. */
  lemma {:induction false} SumWithin(ts: seq<nat>, lo: int, hi: int)
    requires forall i :: 0 <= i < |ts| ==> lo <= ts[i] <= hi
    ensures lo * |ts| <= Sum(ts) <= hi * |ts|
    decreases |ts|
  {
    if |ts| > 0 {
      assert forall i :: 0 <= i < |ts[1..]| ==> ts[1..][i] == ts[i + 1];
      SumWithin(ts[1..], lo, hi);
      assert lo * |ts| == lo * |ts[1..]| + lo;
      assert hi * |ts| == hi * |ts[1..]| + hi;
    }
  }

  function Min(ts: seq<nat>): (m: nat)
    requires |ts| > 0
    ensures m in ts && forall i :: 0 <= i < |ts| ==> m <= ts[i]
    decreases |ts|
  {
    if |ts| == 1 then ts[0]
    else
      var rest := Min(ts[1..]);
      assert forall i :: 1 <= i < |ts| ==> ts[i] == ts[1..][i - 1];
      if ts[0] <= rest then ts[0] else rest
  }

  function Max(ts: seq<nat>): (m: nat)
    requires |ts| > 0
    ensures m in ts && forall i :: 0 <= i < |ts| ==> ts[i] <= m
    decreases |ts|
  {
    if |ts| == 1 then ts[0]
    else
      var rest := Max(ts[1..]);
      assert forall i :: 1 <= i < |ts| ==> ts[i] == ts[1..][i - 1];
      if ts[0] >= rest then ts[0] else rest
  }

  /**
    `Math.round(sum / count || 0)`: with no qualifying website the quotient
    is NaN and becomes 0; otherwise the mean rounded half up.
   */
  function MeanResponseTime(ts: seq<nat>): (avg: int)
    ensures |ts| == 0 ==> avg == 0
    ensures |ts| > 0 ==> IsHalfUpRounding(avg, Sum(ts), |ts|)
  {
    if |ts| == 0 then 0 else RoundHalfUp(Sum(ts), |ts|)
  }

  /** The rounded mean lies between the smallest and the largest qualifying response time. */
  lemma MeanWithinRange(ts: seq<nat>)
    requires |ts| > 0
    ensures Min(ts) <= MeanResponseTime(ts) <= Max(ts)
  {
    SumWithin(ts, Min(ts), Max(ts));
    RoundHalfUpWithin(Sum(ts), |ts|, Min(ts), Max(ts));
  }

  /** `getOverallStats`. */
  function GetOverallStats(ws: seq<WebsiteView>): (st: Stats)
    ensures st.total == |ws|
    ensures st.active == CountActive(ws) && st.active <= st.total
    ensures st.up + st.down <= st.total
    ensures st.up == CountLatest(ws, Up) && st.down == CountLatest(ws, Down)
    ensures st.total - st.up - st.down == CountNoData(ws)
    ensures (forall i :: 0 <= i < |ws| ==> !HasTiming(ws[i])) ==> st.avgResponseTime == 0
    ensures |Timings(ws)| > 0 ==>
      && IsHalfUpRounding(st.avgResponseTime, Sum(Timings(ws)), |Timings(ws)|)
      && Min(Timings(ws)) <= st.avgResponseTime <= Max(Timings(ws))
  {
    StatusPartition(ws);
    var ts := Timings(ws);
    var st := Stats(|ws|, CountActive(ws), CountLatest(ws, Up), CountLatest(ws, Down), MeanResponseTime(ts));
    if |ts| > 0 then MeanWithinRange(ts); st else st
  }

  // ---------------------------------------------------------------- requests

  const WebsitesPath := "/api/websites"

  /** The path of one website's resource. */
  function WebsitePath(id: string): string {
    WebsitesPath + "/" + id
  }

  datatype SaveTarget = SaveTarget(verb: string, path: string)

  /** `handleSubmit`: editing updates the edited website, otherwise the form creates one. */
  function SaveTargetFor(editing: Option<WebsiteView>): (t: SaveTarget)
    ensures t.verb == "PUT" <==> editing.Some?
    ensures t.verb == "POST" <==> editing.None?
    ensures editing.Some? ==> t.path == WebsitePath(editing.value.site.id)
    ensures editing.None? ==> t.path == WebsitesPath
  {
    match editing
    case Some(w) => SaveTarget("PUT", WebsitePath(w.site.id))
    case None => SaveTarget("POST", WebsitesPath)
  }

  /** `websites.find((w) => w.id === id)`: the first position holding the id. */
  function FindById(ws: seq<WebsiteView>, id: string): (i: Option<nat>)
    ensures i.Some? ==> i.value < |ws| && ws[i.value].site.id == id
    ensures i.Some? ==> forall k :: 0 <= k < i.value ==> ws[k].site.id != id
    ensures i.None? ==> forall k :: 0 <= k < |ws| ==> ws[k].site.id != id
    decreases |ws|
  {
    if |ws| == 0 then None
    else if ws[0].site.id == id then Some(0)
    else
      match FindById(ws[1..], id)
      case None => None
      case Some(k) => Some(k + 1)
  }

  /** A PUT of a whole website to its resource path. */
  datatype ToggleRequest = ToggleRequest(path: string, body: WebsiteView)

  /**
    `handleToggleActive`: the first website with the id, sent back with only
    `isActive` replaced; an unknown id sends nothing.
   */
  function ToggleActive(ws: seq<WebsiteView>, id: string, isActive: bool): (r: Option<ToggleRequest>)
    ensures r.None? <==> forall k :: 0 <= k < |ws| ==> ws[k].site.id != id
    ensures r.Some? ==>
      var i := FindById(ws, id).value;
      && r.value.path == WebsitePath(id)
      && r.value.body.site.isActive == isActive
      && r.value.body.site.(isActive := ws[i].site.isActive) == ws[i].site
      && r.value.body.statusChecks == ws[i].statusChecks
  {
    match FindById(ws, id)
    case None => None
    case Some(i) =>
      var w := ws[i];
      Some(ToggleRequest(WebsitePath(id), w.(site := w.site.(isActive := isActive))))
  }
}
