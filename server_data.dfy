/** The records the server builds for the dashboard from its collaborators: the
    host statistics with their failure fallback (src/server.js `getSystemStats`)
    and the container listing projected from the container runtime's answer
    (src/server.js `getContainers`). The collaborators themselves (the `os` module,
    the Docker client) are not modelled: their answers, or their failure, are
    parameters. */
module ServerData {
  import opened Text
  import opened JsValues

  /** The host statistics record pushed as `systemStats`. */
  datatype SystemStats = SystemStats(
    uptime: real,
    hostname: string,
    platform: string,
    cpuCount: nat,
    totalMemory: nat,
    freeMemory: nat,
    loadAvg: seq<real>)

  const Unknown: string := "Inconnu"

  /** `getSystemStats`: the host's readings, or the zeroed record when reading
      them threw (`None`). */
  function GetSystemStats(readings: Option<SystemStats>): (stats: SystemStats)
    ensures readings.Some? ==> stats == readings.value
    ensures readings.None? ==>
      && stats.uptime == 0.0 && stats.cpuCount == 0
      && stats.hostname == Unknown && stats.platform == Unknown
      && stats.totalMemory == 0 && stats.freeMemory == 0
      && |stats.loadAvg| == 3 && forall k :: 0 <= k < 3 ==> stats.loadAvg[k] == 0.0
  {
    match readings
    case Some(s) => s
    case None => SystemStats(0.0, Unknown, Unknown, 0, 0, 0, [0.0, 0.0, 0.0])
  }

  /** One entry of the runtime's `listContainers({ all: true })` answer, with the
      fields the projection reads. */
  datatype DockerContainer = DockerContainer(
    Id: string,
    Names: seq<string>,
    Image: string,
    State: string,
    Status: string,
    Created: int,
    Ports: seq<Object>)

  /** The container record the server emits. */
  datatype ContainerView = ContainerView(
    id: string,
    name: string,
    image: string,
    state: string,
    status: string,
    created: int,
    ports: seq<Object>)

  const ShortIdLength: nat := 12

  /** `id.substring(0, 12)`. */
  function ShortId(id: string): (short: string)
    ensures |short| == if |id| < ShortIdLength then |id| else ShortIdLength
    ensures short <= id
  {
    if |id| < ShortIdLength then id else id[..ShortIdLength]
  }

  /** `name.replace(/^\//, '')`: one leading slash, if any, removed. */
  function StripSlash(name: string): (r: string)
    ensures name == "/" + r || (r == name && (name == [] || name[0] != '/'))
  {
    if name != [] && name[0] == '/' then name[1..] else name
  }

  /** The port record the server emits for one port the runtime reports: the
      runtime's capitalised fields under lower-case names. */
  function ProjectPort(port: Object): (r: Object)
    ensures r.Keys == {"ip", "privatePort", "publicPort", "type"}
    ensures r["ip"] == Get(port, "IP") && r["privatePort"] == Get(port, "PrivatePort")
    ensures r["publicPort"] == Get(port, "PublicPort") && r["type"] == Get(port, "Type")
  {
    map["ip" := Get(port, "IP"), "privatePort" := Get(port, "PrivatePort"),
        "publicPort" := Get(port, "PublicPort"), "type" := Get(port, "Type")]
  }

  function ProjectPorts(ports: seq<Object>): (r: seq<Object>)
    ensures |r| == |ports|
    ensures forall k :: 0 <= k < |ports| ==> r[k] == ProjectPort(ports[k])
  {
    if ports == [] then [] else [ProjectPort(ports[0])] + ProjectPorts(ports[1..])
  }

  function ProjectContainer(c: DockerContainer): ContainerView
    requires c.Names != []
  {
    ContainerView(ShortId(c.Id), StripSlash(c.Names[0]), c.Image, c.State, c.Status, c.Created, ProjectPorts(c.Ports))
  }

  /** `container.Names[0].replace(...)` throws when `Names` is empty, and the
      throw abandons the whole listing. */
  predicate AllNamed(cs: seq<DockerContainer>) {
    forall k :: 0 <= k < |cs| ==> cs[k].Names != []
  }

  function ProjectAll(cs: seq<DockerContainer>): (views: seq<ContainerView>)
    requires AllNamed(cs)
    ensures |views| == |cs|
    ensures forall k :: 0 <= k < |cs| ==> views[k] == ProjectContainer(cs[k])
  {
    if cs == [] then [] else [ProjectContainer(cs[0])] + ProjectAll(cs[1..])
  }

  /** `getContainers`: the projection of the runtime's listing, or the empty list
      when the listing failed (`None`) or projecting any entry threw. */
  function GetContainers(listing: Option<seq<DockerContainer>>): seq<ContainerView> {
    match listing
    case Some(cs) => if AllNamed(cs) then ProjectAll(cs) else []
    case None => []
  }

  /** Each record carries the first (at most) 12 characters of the id, the
      first name with at most one leading slash removed, the same image, state,
      status and creation time, and the container's ports projected one for one
      in order. */
  lemma ProjectContainerFields(c: DockerContainer)
    requires c.Names != []
    ensures var v := ProjectContainer(c);
      && v.id <= c.Id && |v.id| == (if |c.Id| < ShortIdLength then |c.Id| else ShortIdLength)
      && (c.Names[0] == "/" + v.name || (v.name == c.Names[0] && (v.name == [] || v.name[0] != '/')))
      && v.image == c.Image && v.state == c.State && v.status == c.Status && v.created == c.Created
      && |v.ports| == |c.Ports|
      && forall j :: 0 <= j < |c.Ports| ==> v.ports[j] == ProjectPort(c.Ports[j])
  {
  }

  /** The listing is empty exactly when the runtime failed, had no containers, or
      one of them had no name; otherwise it has one record per container. */
  lemma GetContainersEmptyIff(listing: Option<seq<DockerContainer>>)
    ensures GetContainers(listing) == [] <==>
      listing.None? || listing.value == [] || exists k :: 0 <= k < |listing.value| && listing.value[k].Names == []
    ensures listing.Some? && AllNamed(listing.value) ==> |GetContainers(listing)| == |listing.value|
  {
  }
}
