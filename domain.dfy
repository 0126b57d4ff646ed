/**
 * The values the tool exchanges with its collaborators (awstools-lib, awsls, terradozer):
 * resource descriptors, refreshed states, client keys and log entries.
 */
module Domain {

  /** terraform.Resource / awsls.Resource before its state is fetched. */
  datatype Resource = Resource(rtype: string, id: string, profile: string, region: string)

  /**
   * The state attached by the refresh: Null when the resource no longer exists,
   * otherwise an opaque handle that the destroyer uses.
   */
  datatype State = Null | Live(handle: nat)

  /** A resource together with its refreshed state. */
  datatype Refreshed = Refreshed(desc: Resource, state: State)

  /** A refreshed resource that still exists: the only kind that can be destroyed. */
  type Eligible = r: Refreshed | r.state.Live? witness Refreshed(Resource("", "", "", ""), Live(0))

  /** terradozer's DestroyableResource: a descriptor and the live handle that carries destroy(). */
  datatype Destroyable = Destroyable(desc: Resource, handle: nat)

  /** aws.ClientKey: one credential scope, the key of one client and one provider. */
  datatype ClientKey = ClientKey(profile: string, region: string)

  /** aws.Client, reduced to the scope it was created for. */
  datatype Client = Client(profile: string, region: string)

  datatype Level = Info | Warn

  /** What the tool logs: a section title (internal.LogTitle) or one line per resource. */
  datatype LogEntry = Title(text: string) | Listed(level: Level, r: Resource)

  /** The client key a resource is bound to. */
  function KeyOf(r: Resource): ClientKey {
    ClientKey(r.profile, r.region)
  }
}
