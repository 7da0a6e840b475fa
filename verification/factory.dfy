/** `createICWWidget`: find the container, then re-initialise the widget
    already tagged for it or create, tag, initialise and append a new one.
    The page is abstracted to the container ids present, the widget tagged
    for each container id, and the log of `appendChild` calls. */
module Factory {
  import opened Wrappers
  import Config
  import W = Widget

  datatype Document = Document(
    containers: set<string>,
    widgets: map<string, W.Widget>,
    appended: seq<string>
  )

  /** The thrown error's message for a missing container. */
  function NotFound(id: string): string {
    "Container \"" + id + "\" not found."
  }

  /** `appendChild` of the element tagged `id`: attaching it runs
      `connectedCallback`, so it shows the loading indicator and sends its
      call. */
  function Append(doc: Document, id: string, w: W.Widget): (r: Document)
    requires W.Configured(w)
    ensures r.containers == doc.containers
    ensures r.appended == doc.appended + [id]
    ensures r.widgets.Keys == doc.widgets.Keys + {id}
    ensures forall k :: k in doc.widgets && k != id ==> r.widgets[k] == doc.widgets[k]
    ensures r.widgets[id].config == w.config && r.widgets[id].data == w.data
    ensures r.widgets[id].content == W.LoadingIndicator
    ensures r.widgets[id].inFlight == w.inFlight + [Config.Request(w.config.value)]
  {
    doc.(widgets := doc.widgets[id := W.ConnectedCallback(w)], appended := doc.appended + [id])
  }

  function CreateICWWidget(doc: Document, c: Config.ICWConfig): (r: Result<Document, string>)
    // `getElementById("")` finds nothing: an empty id attribute sets no id
    ensures r.Failure? <==> c.containerId == "" || c.containerId !in doc.containers
    ensures r.Failure? ==> r.error == NotFound(c.containerId)
    ensures r.Success? ==> r.value.containers == doc.containers
    ensures r.Success? ==> r.value.widgets.Keys == doc.widgets.Keys + {c.containerId}
    ensures r.Success? ==> forall id :: id in doc.widgets && id != c.containerId ==>
      r.value.widgets[id] == doc.widgets[id]
    ensures r.Success? ==> r.value.widgets[c.containerId].config == Some(Config.Initialize(c))
    // reuse: re-initialised in place; nothing appended, rendered or sent
    ensures r.Success? && c.containerId in doc.widgets ==>
      && r.value.appended == doc.appended
      && r.value.widgets[c.containerId].data == doc.widgets[c.containerId].data
      && r.value.widgets[c.containerId].content == doc.widgets[c.containerId].content
      && r.value.widgets[c.containerId].inFlight == doc.widgets[c.containerId].inFlight
    // create: exactly one new widget, appended once, loading, one call sent
    ensures r.Success? && c.containerId !in doc.widgets ==>
      && r.value.appended == doc.appended + [c.containerId]
      && r.value.widgets[c.containerId].data.None?
      && r.value.widgets[c.containerId].content == W.LoadingIndicator
      && r.value.widgets[c.containerId].inFlight == [Config.Request(Config.Initialize(c))]
  {
    if c.containerId == "" || c.containerId !in doc.containers then
      Failure(NotFound(c.containerId))
    else if c.containerId in doc.widgets then
      var existing := doc.widgets[c.containerId];
      Success(doc.(widgets := doc.widgets[c.containerId := W.Initialize(existing, c)]))
    else
      // tagged by its map key, initialised before it is appended
      Success(Append(doc, c.containerId, W.Initialize(W.Fresh, c)))
  }

  /** An empty container id is never found, whatever the page holds. */
  lemma EmptyIdNotFound(doc: Document, c: Config.ICWConfig)
    requires c.containerId == ""
    ensures CreateICWWidget(doc, c) == Failure("Container \"\" not found.")
  {
    var msg := NotFound("");
    assert msg == "Container \"\" not found.";
    assert CreateICWWidget(doc, c).Failure?;
    assert CreateICWWidget(doc, c).error == msg;
  }

  /** The error message names the missing container id verbatim, between
      double quotes. */
  lemma NotFoundNamesContainer(id: string)
    ensures |NotFound(id)| == |id| + 23
    ensures NotFound(id)[..11] == "Container \""
    ensures NotFound(id)[11..11 + |id|] == id
    ensures NotFound(id)[11 + |id|..] == "\" not found."
  {
  }

  /** The `i`th pending call of the widget tagged `id` settles; that call is
      consumed and no other widget changes. */
  function SettleFetch(doc: Document, id: string, i: nat, service: W.Service): (r: Document)
    requires id in doc.widgets && i < |doc.widgets[id].inFlight|
    ensures r.widgets.Keys == doc.widgets.Keys
    ensures |r.widgets[id].inFlight| == |doc.widgets[id].inFlight| - 1
    ensures r.widgets[id] == W.Settle(doc.widgets[id], i, service)
    ensures forall k :: k in doc.widgets && k != id ==> r.widgets[k] == doc.widgets[k]
    ensures r.containers == doc.containers && r.appended == doc.appended
  {
    doc.(widgets := doc.widgets[id := W.Settle(doc.widgets[id], i, service)])
  }

  predicate AllReachable(doc: Document) {
    forall id :: id in doc.widgets ==> W.Reachable(doc.widgets[id])
  }

  lemma CreatePreservesReachable(doc: Document, c: Config.ICWConfig)
    requires AllReachable(doc)
    ensures CreateICWWidget(doc, c).Success? ==> AllReachable(CreateICWWidget(doc, c).value)
  {
  }

  lemma SettlePreservesReachable(doc: Document, id: string, i: nat, service: W.Service)
    requires AllReachable(doc)
    requires id in doc.widgets && i < |doc.widgets[id].inFlight|
    ensures AllReachable(SettleFetch(doc, id, i, service))
  {
    W.MethodsPreserveReachable(doc.widgets[id], doc.widgets[id].config.value, "", i, service);
  }

  /** Create a widget in an existing container, let its call succeed, and
      change the checkbox: the configured callback receives the checked
      state. */
  lemma CreatedWidgetForwardsToggle(doc: Document, c: Config.ICWConfig, service: W.Service, checked: bool)
    requires c.containerId != "" && c.containerId in doc.containers && c.containerId !in doc.widgets
    requires var outcome := service(Config.Request(Config.Initialize(c)));
      outcome.Success? && outcome.value.Some?
    ensures var created := CreateICWWidget(doc, c).value;
      var settled := SettleFetch(created, c.containerId, 0, service);
      W.ToggleChange(settled.widgets[c.containerId], checked)
        == Some(W.Invocation(c.onProtectionToggle.GetOr(Config.NoOp), checked))
  {
  }

  /** Calling the factory twice for the same container creates one widget:
      the second call re-initialises it and appends nothing. */
  lemma SecondCallReuses(doc: Document, a: Config.ICWConfig, b: Config.ICWConfig)
    requires a.containerId == b.containerId
    requires CreateICWWidget(doc, a).Success?
    ensures var d1 := CreateICWWidget(doc, a).value;
      && CreateICWWidget(d1, b).Success?
      && CreateICWWidget(d1, b).value.appended == d1.appended
      && CreateICWWidget(d1, b).value.widgets.Keys == d1.widgets.Keys
      && CreateICWWidget(d1, b).value.widgets[b.containerId].config == Some(Config.Initialize(b))
      && CreateICWWidget(d1, b).value.widgets[b.containerId].inFlight
           == d1.widgets[b.containerId].inFlight
  {
  }

  /** A widget created with `a` and re-initialised with `b` before its call
      settles: the response stored is the answer to the call built from `a`,
      and the checkbox then calls `b`'s callback. */
  lemma ReinitializedBeforeSettle(doc: Document, a: Config.ICWConfig, b: Config.ICWConfig,
                                  service: W.Service, checked: bool)
    requires a.containerId == b.containerId
    requires a.containerId != "" && a.containerId in doc.containers && a.containerId !in doc.widgets
    requires var outcome := service(Config.Request(Config.Initialize(a)));
      outcome.Success? && outcome.value.Some?
    ensures var d1 := CreateICWWidget(doc, a).value;
      var d2 := CreateICWWidget(d1, b).value;
      var d3 := SettleFetch(d2, a.containerId, 0, service);
      && d3.widgets[a.containerId].data == service(Config.Request(Config.Initialize(a))).value
      && d3.widgets[a.containerId].inFlight == []
      && W.ToggleChange(d3.widgets[a.containerId], checked)
           == Some(W.Invocation(Config.Initialize(b).onProtectionToggle.value, checked))
  {
    var d1 := CreateICWWidget(doc, a).value;
    var d2 := CreateICWWidget(d1, b).value;
    assert d2.widgets[a.containerId].inFlight == [Config.Request(Config.Initialize(a))];
  }
}
