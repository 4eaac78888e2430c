/**
  The stored entities: monitored websites and their status checks, and the
  website-with-latest-checks shape that the websites API returns and the
  dashboard consumes.
 */
module Records {
  import opened Common

  /** The protocol kind a website is monitored with. */
  datatype Kind = HTTP | HTTPS | PING

  /** The string the kind is stored and sent as. */
  function KindName(k: Kind): string {
    match k
    case HTTP => "HTTP"
    case HTTPS => "HTTPS"
    case PING => "PING"
  }

  /** The outcome of one probe. */
  datatype Status = Up | Down

  /** The string the status is stored and sent as. */
  function StatusName(s: Status): string {
    match s
    case Up => "up"
    case Down => "down"
  }

  /** A registered target. `createdAt` and `id` are assigned by the store. */
  datatype Website = Website(
    id: string,
    name: string,
    url: string,
    kind: Kind,
    isActive: bool,
    createdAt: int)

  /** One persisted probe result; `checkedAt` is the store's timestamp, in milliseconds. */
  datatype StatusCheck = StatusCheck(
    websiteId: string,
    status: Status,
    responseTime: Option<nat>,
    statusCode: Option<nat>,
    errorMessage: Option<string>,
    checkedAt: int)

  /** A website as the dashboard sees it: the record with its checks, latest first. */
  datatype WebsiteView = WebsiteView(site: Website, statusChecks: seq<StatusCheck>)
}
