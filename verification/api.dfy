/** The JSON responses the route handlers send. */
module Api {
  import opened Common
  import opened Records
  import opened Monitoring

  /** The JSON body of a response. */
  datatype Body =
    | ErrorBody(error: string)
    | SummaryBody(message: string, successful: nat, failed: nat)
    | ProbeBody(result: ProbeResult)
    | SitesBody(sites: seq<WebsiteView>)
    | CreatedBody(site: Website)

  /** `NextResponse.json(body, { status })`; the status defaults to 200. */
  datatype Response = Response(status: nat, body: Body)

  const Unauthorized := Response(401, ErrorBody("Unauthorized"))

  /** JavaScript truthiness of an optional string field of a request body: present and not empty. */
  predicate Truthy(field: Option<string>) {
    field.Some? && field.value != ""
  }
}
