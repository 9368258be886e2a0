/** What the dashboard derives from each `containers` push before rendering it
    (public/script.js `updateContainersList`): the running and total counters,
    one list item per container with its status class and port tags, and the
    container selector rebuilt so that the selection survives. The HTML strings
    and DOM calls are not modelled; the values they display are. */
module ContainerList {
  import opened Text
  import opened JsValues
  import opened ServerData

  const Running: string := "running"
  const Exited: string := "exited"

  /** `containers.filter(c => c.state === 'running').length`. */
  function CountRunning(cs: seq<ContainerView>): (n: nat)
    ensures n <= |cs|
  {
    if cs == [] then 0 else (if cs[0].state == Running then 1 else 0) + CountRunning(cs[1..])
  }

  lemma {:induction false} CountRunningAppend(a: seq<ContainerView>, b: seq<ContainerView>)
    ensures CountRunning(a + b) == CountRunning(a) + CountRunning(b)
  {
    if a != [] {
      CountRunningAppend(a[1..], b);
      assert (a + b)[1..] == a[1..] + b;
    } else {
      assert a + b == b;
    }
  }

  /** The running counter equals the total exactly when every container is
      running and is zero exactly when none is. */
  lemma {:induction false} CountRunningBounds(cs: seq<ContainerView>)
    ensures CountRunning(cs) == |cs| <==> forall k :: 0 <= k < |cs| ==> cs[k].state == Running
    ensures CountRunning(cs) == 0 <==> forall k :: 0 <= k < |cs| ==> cs[k].state != Running
  {
    if cs != [] {
      CountRunningBounds(cs[1..]);
      assert forall k :: 1 <= k < |cs| ==> cs[k] == cs[1..][k - 1];
    }
  }

  /** The CSS class of a container's status badge. */
  function StatusClass(state: string): (cls: string)
    ensures cls == "status-running" <==> state == Running
    ensures cls == "status-exited" <==> state == Exited
    ensures cls in {"status-running", "status-exited", "status-created"}
  {
    if state == Running then "status-running"
    else if state == Exited then "status-exited"
    else "status-created"
  }

  /** A port tag shows `PrivatePort:PublicPort/Type` of one port object. */
  datatype PortTag = PortTag(privatePort: Value, publicPort: Value, portType: Value)

  /** The tags for a container's ports: one per port whose `PublicPort` field
      is truthy, in list order. The fields are read under the runtime's
      capitalised names. */
  function PortTags(ports: seq<Object>): (tags: seq<PortTag>)
    ensures |tags| <= |ports|
    ensures forall t :: t in tags ==> Truthy(t.publicPort)
  {
    if ports == [] then []
    else
      var p := ports[0];
      (if Truthy(Get(p, "PublicPort")) then [PortTag(Get(p, "PrivatePort"), Get(p, "PublicPort"), Get(p, "Type"))] else [])
      + PortTags(ports[1..])
  }

  /** Tagging respects order: the tags of a concatenation are the tags of each
      part, one after the other. */
  lemma {:induction false} PortTagsAppend(a: seq<Object>, b: seq<Object>)
    ensures PortTags(a + b) == PortTags(a) + PortTags(b)
  {
    if a != [] {
      PortTagsAppend(a[1..], b);
      assert (a + b)[1..] == a[1..] + b;
    } else {
      assert a + b == b;
    }
  }

  /** A port is tagged exactly when its `PublicPort` field is truthy, and its tag
      shows that port's `PrivatePort`, `PublicPort` and `Type`. */
  lemma PortTagsSingle(p: Object)
    ensures PortTags([p]) == if Truthy(Get(p, "PublicPort"))
      then [PortTag(Get(p, "PrivatePort"), Get(p, "PublicPort"), Get(p, "Type"))]
      else []
  {
    assert [p][1..] == [];
  }

  /** The port records the server emits name the field `publicPort`, so the
      dashboard, reading `PublicPort`, tags none of them. */
  lemma {:induction false} ServerPortsNeverTagged(ports: seq<Object>)
    ensures PortTags(ProjectPorts(ports)) == []
  {
    if ports != [] {
      ServerPortsNeverTagged(ports[1..]);
      var r := ProjectPorts(ports);
      assert r == [ProjectPort(ports[0])] + ProjectPorts(ports[1..]);
      assert r[1..] == ProjectPorts(ports[1..]);
      assert "PublicPort" !in r[0];
    }
  }

  /** One entry of the rendered list. */
  datatype ContainerItem = ContainerItem(statusClass: string, state: string, name: string, id: string, image: string, ports: seq<PortTag>)

  function RenderItem(c: ContainerView): ContainerItem {
    ContainerItem(StatusClass(c.state), c.state, c.name, c.id, c.image, PortTags(c.ports))
  }

  /** One `<option>` of the container selector. */
  datatype SelectOption = SelectOption(value: string, text: string, selected: bool)

  const Placeholder: SelectOption := SelectOption("", "Sélectionner un container", false)

  /** `select.value` for a drop-down: the value of the first selected option, or
      of the first option when none is selected (a drop-down always shows one),
      or the empty string when there is no option. */
  function SelectorValue(options: seq<SelectOption>): string {
    match FirstSelectedValue(options)
    case Some(v) => v
    case None => if options == [] then "" else options[0].value
  }

  function FirstSelectedValue(options: seq<SelectOption>): Option<string> {
    if options == [] then None
    else if options[0].selected then Some(options[0].value)
    else FirstSelectedValue(options[1..])
  }

  /** The options appended for the containers, selected where the id equals the
      value selected before the rebuild. */
  function ContainerOptions(cs: seq<ContainerView>, previous: string): (opts: seq<SelectOption>)
    ensures |opts| == |cs|
    ensures forall k :: 0 <= k < |cs| ==> opts[k].value == cs[k].id && opts[k].text == cs[k].name
    ensures forall k :: 0 <= k < |cs| ==> (opts[k].selected <==> cs[k].id == previous)
  {
    if cs == [] then []
    else [SelectOption(cs[0].id, cs[0].name, cs[0].id == previous)] + ContainerOptions(cs[1..], previous)
  }

  /** The list area: the "no container" message, or one item per container. */
  datatype ListContent = NoContainersMessage | Items(items: seq<ContainerItem>)

  /** Everything `updateContainersList` sets. */
  datatype ContainerPanel = ContainerPanel(active: nat, total: nat, list: ListContent, selector: seq<SelectOption>)

  /** `updateContainersList(containers)` with the selector's options before the
      call: counters first, then either the message and an early return (the
      selector is left as it was) or the list and a rebuilt selector. */
  function UpdateContainersList(cs: seq<ContainerView>, selector: seq<SelectOption>): ContainerPanel {
    ContainerPanel(CountRunning(cs), |cs|, ListContentFor(cs), SelectorAfter(cs, selector))
  }

  function ListContentFor(cs: seq<ContainerView>): ListContent {
    if cs == [] then NoContainersMessage else Items(RenderList(cs))
  }

  function SelectorAfter(cs: seq<ContainerView>, selector: seq<SelectOption>): seq<SelectOption> {
    if cs == [] then selector else [Placeholder] + ContainerOptions(cs, SelectorValue(selector))
  }

  function RenderList(cs: seq<ContainerView>): (items: seq<ContainerItem>)
    ensures |items| == |cs|
    ensures forall k :: 0 <= k < |cs| ==> items[k] == RenderItem(cs[k])
  {
    if cs == [] then [] else [RenderItem(cs[0])] + RenderList(cs[1..])
  }

  /** The value of a list of options in which some option is selected is the
      value of the first selected one. */
  lemma {:induction false} FirstSelectedValueAt(options: seq<SelectOption>, k: nat)
    requires k < |options| && options[k].selected
    requires forall j :: 0 <= j < k ==> !options[j].selected
    ensures FirstSelectedValue(options) == Some(options[k].value)
  {
    if k > 0 {
      FirstSelectedValueAt(options[1..], k - 1);
    }
  }

  lemma {:induction false} FirstSelectedValueNone(options: seq<SelectOption>)
    requires forall j :: 0 <= j < |options| ==> !options[j].selected
    ensures FirstSelectedValue(options) == None
  {
    if options != [] {
      FirstSelectedValueNone(options[1..]);
    }
  }

  /** The counters: `active` counts the containers in state `running`, `total`
      is the list's length. */
  lemma CountersOfUpdate(cs: seq<ContainerView>, selector: seq<SelectOption>)
    ensures UpdateContainersList(cs, selector).active == CountRunning(cs) <= |cs|
    ensures UpdateContainersList(cs, selector).total == |cs|
  {
  }

  /** An empty push shows the message and leaves the selector as it was. */
  lemma EmptyUpdateKeepsSelector(selector: seq<SelectOption>)
    ensures UpdateContainersList([], selector) == ContainerPanel(0, 0, NoContainersMessage, selector)
  {
  }

  /** After a rebuild, each container's option is selected exactly when its id
      equals the previous selection, so the selector shows the previous
      selection if some container still has that id, and the placeholder
      otherwise. */
  lemma SelectionPreserved(cs: seq<ContainerView>, selector: seq<SelectOption>)
    requires cs != []
    ensures var previous := SelectorValue(selector);
            var opts := UpdateContainersList(cs, selector).selector;
            && |opts| == |cs| + 1 && opts[0] == Placeholder
            && (forall k :: 1 <= k < |opts| ==> (opts[k].selected <==> opts[k].value == previous))
            && SelectorValue(opts) == (if exists k :: 0 <= k < |cs| && cs[k].id == previous then previous else "")
  {
    RebuiltSelectorValue(cs, SelectorValue(selector));
  }

  /** The rebuilt selector shows `previous` when some container has that id, and
      the placeholder's empty value otherwise. */
  lemma RebuiltSelectorValue(cs: seq<ContainerView>, previous: string)
    ensures SelectorValue([Placeholder] + ContainerOptions(cs, previous))
         == if exists k :: 0 <= k < |cs| && cs[k].id == previous then previous else ""
  {
    var opts := [Placeholder] + ContainerOptions(cs, previous);
    if exists k :: 0 <= k < |cs| && cs[k].id == previous {
      var first := FirstWithId(cs, previous);
      FirstSelectedValueAt(opts, first + 1);
    } else {
      FirstSelectedValueNone(opts);
    }
  }

  /** The first index of a container with the given id. */
  lemma FirstWithId(cs: seq<ContainerView>, id: string) returns (k: nat)
    requires exists j :: 0 <= j < |cs| && cs[j].id == id
    ensures k < |cs| && cs[k].id == id
    ensures forall j :: 0 <= j < k ==> cs[j].id != id
  {
    k := 0;
    while cs[k].id != id
      invariant k < |cs|
      invariant forall j :: 0 <= j < k ==> cs[j].id != id
      decreases |cs| - k
    {
      k := k + 1;
    }
  }

  /** Data pushed by the server never gets port tags in the list, whatever ports
      the runtime reports. */
  lemma ServerListHasNoPortTags(listing: Option<seq<DockerContainer>>, selector: seq<SelectOption>)
    ensures var panel := UpdateContainersList(GetContainers(listing), selector);
            panel.list.Items? ==> forall k :: 0 <= k < |panel.list.items| ==> panel.list.items[k].ports == []
  {
    var cs := GetContainers(listing);
    if listing.Some? && AllNamed(listing.value) {
      forall k | 0 <= k < |cs| ensures PortTags(cs[k].ports) == [] {
        ServerPortsNeverTagged(listing.value[k].Ports);
      }
    }
  }
}
