/**
  The website registry endpoints: listing every website with its latest
  status check, newest website first (`GET /api/websites`), and creating a
  website (`POST /api/websites`).
 */
module WebsitesRoute {
  import opened Common
  import opened Records
  import opened Api

  /** The two tables the endpoints read. */
  datatype Db = Db(websites: seq<Website>, checks: seq<StatusCheck>)

  // ---------------------------------------------------------------- latest check

  /**
    The check of website `id` with the greatest `checkedAt`
    (`orderBy: { checkedAt: "desc" }, take: 1`); among equal timestamps the
    first in the table. None exactly when the website has no checks.
   */
  function LatestCheck(checks: seq<StatusCheck>, id: string): (latest: Option<StatusCheck>)
    ensures latest.None? <==> forall c :: c in checks ==> c.websiteId != id
    ensures latest.Some? ==> latest.value in checks && latest.value.websiteId == id
    ensures latest.Some? ==> forall c :: c in checks && c.websiteId == id ==> c.checkedAt <= latest.value.checkedAt
    decreases |checks|
  {
    if |checks| == 0 then None
    else
      var rest := LatestCheck(checks[1..], id);
      var c := checks[0];
      assert checks == [c] + checks[1..];
      if c.websiteId != id then rest
      else if rest.Some? && rest.value.checkedAt > c.checkedAt then rest
      else Some(c)
  }

  /** A website with at most its latest check, as the listing returns it. */
  function WithLatest(w: Website, checks: seq<StatusCheck>): (v: WebsiteView)
    ensures v.site == w && |v.statusChecks| <= 1
    ensures |v.statusChecks| == 0 <==> forall c :: c in checks ==> c.websiteId != w.id
    ensures |v.statusChecks| == 1 ==>
      v.statusChecks[0] in checks && v.statusChecks[0].websiteId == w.id
      && forall c :: c in checks && c.websiteId == w.id ==> c.checkedAt <= v.statusChecks[0].checkedAt
  {
    match LatestCheck(checks, w.id)
    case None => WebsiteView(w, [])
    case Some(c) => WebsiteView(w, [c])
  }

  // ---------------------------------------------------------------- ordering

  predicate NewestFirst(ws: seq<Website>) {
    forall i, j :: 0 <= i < j < |ws| ==> ws[i].createdAt >= ws[j].createdAt
  }

  /** A website at least as new as every website of a newest-first sequence can go in front of it. */
  lemma ConsNewestFirst(h: Website, t: seq<Website>)
    requires NewestFirst(t)
    requires forall x :: x in t ==> h.createdAt >= x.createdAt
    ensures NewestFirst([h] + t)
  {
    var r := [h] + t;
    forall i, j | 0 <= i < j < |r|
      ensures r[i].createdAt >= r[j].createdAt
    {
      assert r[j] == t[j - 1];
      if i > 0 {
        assert r[i] == t[i - 1];
      }
    }
  }

  /** The first website of a newest-first sequence is at least as new as every website in it. */
  lemma HeadIsNewest(sorted: seq<Website>)
    requires NewestFirst(sorted) && |sorted| > 0
    ensures forall x :: x in sorted ==> sorted[0].createdAt >= x.createdAt
  {
    forall x | x in sorted
      ensures sorted[0].createdAt >= x.createdAt
    {
      var k :| 0 <= k < |sorted| && sorted[k] == x;
      if k > 0 {
        assert sorted[0].createdAt >= sorted[k].createdAt;
      }
    }
  }

  /**
    Putting a website that is at least as new as w and every website of rest
    in front of a newest-first insertion of w into rest keeps it newest first
    and the insertion of w into the longer sequence.
   */
  lemma PrependKeeps(h: Website, t: seq<Website>, w: Website, rest: seq<Website>)
    requires NewestFirst(t)
    requires h.createdAt >= w.createdAt
    requires forall x :: x in rest ==> h.createdAt >= x.createdAt
    requires multiset(t) == multiset(rest) + multiset{w}
    requires forall x :: x in t ==> x == w || x in rest
    ensures NewestFirst([h] + t)
    ensures multiset([h] + t) == multiset([h] + rest) + multiset{w}
    ensures forall x :: x in [h] + t ==> x == w || x in [h] + rest
  {
    ConsNewestFirst(h, t);
    assert multiset([h] + t) == multiset{h} + multiset(t);
    assert multiset([h] + rest) == multiset{h} + multiset(rest);
  }

  /** Inserts w into a newest-first sequence, after the websites at least as new. */
  function Insert(w: Website, sorted: seq<Website>): (r: seq<Website>)
    requires NewestFirst(sorted)
    ensures NewestFirst(r)
    ensures multiset(r) == multiset(sorted) + multiset{w}
    ensures forall x :: x in r ==> x == w || x in sorted
    decreases |sorted|
  {
    if |sorted| == 0 then [w]
    else if sorted[0].createdAt >= w.createdAt then
      var head := sorted[0];
      var tail := Insert(w, sorted[1..]);
      assert sorted == [head] + sorted[1..];
      PrependKeeps(head, tail, w, sorted[1..]);
      [head] + tail
    else
      HeadIsNewest(sorted);
      ConsNewestFirst(w, sorted);
      var r := [w] + sorted;
      assert multiset(r) == multiset{w} + multiset(sorted);
      r
  }

  /** `orderBy: { createdAt: "desc" }`: the same websites, newest first. */
  function SortNewestFirst(ws: seq<Website>): (r: seq<Website>)
    ensures NewestFirst(r)
    ensures multiset(r) == multiset(ws)
    decreases |ws|
  {
    if |ws| == 0 then []
    else
      assert ws == [ws[0]] + ws[1..];
      Insert(ws[0], SortNewestFirst(ws[1..]))
  }

  /** The listing: every website once, newest first, each with at most its latest check. */
  function Listing(db: Db): (views: seq<WebsiteView>)
    ensures |views| == |db.websites|
    ensures forall i, j :: 0 <= i < j < |views| ==> views[i].site.createdAt >= views[j].site.createdAt
    ensures multiset(seq(|views|, i requires 0 <= i < |views| => views[i].site)) == multiset(db.websites)
    ensures forall i :: 0 <= i < |views| ==> views[i] == WithLatest(views[i].site, db.checks)
  {
    var sorted := SortNewestFirst(db.websites);
    var views := seq(|sorted|, i requires 0 <= i < |sorted| => WithLatest(sorted[i], db.checks));
    assert seq(|views|, i requires 0 <= i < |views| => views[i].site) == sorted;
    views
  }

  /** `GET /api/websites`: 401 without a session, 500 when the query fails, else the listing. */
  function GetWebsites(session: bool, db: Option<Db>): (r: Response)
    ensures !session ==> r == Unauthorized
    ensures session && db.None? ==> r == Response(500, ErrorBody("Failed to fetch websites"))
    ensures session && db.Some? ==> r.status == 200 && r.body == SitesBody(Listing(db.value))
  {
    if !session then Unauthorized
    else if db.None? then Response(500, ErrorBody("Failed to fetch websites"))
    else Response(200, SitesBody(Listing(db.value)))
  }

  // ---------------------------------------------------------------- create

  /** The fields of the request body the handler looks at, and one it does not. */
  datatype CreateRequest = CreateRequest(
    name: Option<string>, url: Option<string>, kind: Option<string>, isActive: Option<bool>)

  /** The data passed to the store's create call. */
  datatype NewWebsite = NewWebsite(name: string, url: string, kind: string)

  /** The response of a create, and the create call issued, if any. */
  datatype Created = Created(response: Response, issued: Option<NewWebsite>)

  /**
    `POST /api/websites`. 401 without a session, before the body is read; 500
    for an unreadable body; 400 and no create when name, url or type is
    missing or empty; otherwise one create from exactly those three fields,
    answering 200 with the stored website or 500 when the store fails.
   */
  function PostWebsite(session: bool, body: Option<CreateRequest>, create: NewWebsite -> Option<Website>): (c: Created)
    ensures c.issued.Some? <==>
      session && body.Some? && Truthy(body.value.name) && Truthy(body.value.url) && Truthy(body.value.kind)
    ensures c.issued.Some? ==>
      && c.issued.value == NewWebsite(body.value.name.value, body.value.url.value, body.value.kind.value)
      && (create(c.issued.value).Some? ==> c.response == Response(200, CreatedBody(create(c.issued.value).value)))
      && (create(c.issued.value).None? ==> c.response == Response(500, ErrorBody("Failed to create website")))
    ensures !session ==> c.response == Unauthorized
    ensures session && body.None? ==> c == Created(Response(500, ErrorBody("Failed to create website")), None)
    ensures session && body.Some? && c.issued.None? ==>
      c.response == Response(400, ErrorBody("Name, URL, and type are required"))
  {
    if !session then Created(Unauthorized, None)
    else if body.None? then Created(Response(500, ErrorBody("Failed to create website")), None)
    else
      var req := body.value;
      if !Truthy(req.name) || !Truthy(req.url) || !Truthy(req.kind) then
        Created(Response(400, ErrorBody("Name, URL, and type are required")), None)
      else
        var data := NewWebsite(req.name.value, req.url.value, req.kind.value);
        match create(data)
        case Some(w) => Created(Response(200, CreatedBody(w)), Some(data))
        case None => Created(Response(500, ErrorBody("Failed to create website")), Some(data))
  }

  /** Fields other than name, url and type, such as `isActive`, have no effect on a create. */
  lemma PostIgnoresIsActive(
    session: bool, req: CreateRequest, other: Option<bool>, create: NewWebsite -> Option<Website>)
    ensures PostWebsite(session, Some(req), create) == PostWebsite(session, Some(req.(isActive := other)), create)
  {
  }
}
