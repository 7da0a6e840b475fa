/** The widget element's lifecycle: `initialize`, `connectedCallback`,
    `renderLoading`, `renderError`, `fetchAndRender`, `renderWidget`, and
    the checkbox's change listener. The element's state is a value; each
    method is a function from the old state to the new one.

    `fetchAndRender` runs in two parts. Up to its first `await` it runs
    inside `connectedCallback`: it reads the configuration and sends the
    call. The rest runs when that call settles, on the element as it is then.
    The element therefore keeps the calls it has sent and not yet seen
    settle. */
module Widget {
  import opened Wrappers
  import opened Types
  import Config
  import opened Render

  /** What the element's rendering root shows. */
  datatype Content = Blank | LoadingIndicator | ErrorMessage(text: string) | QuoteView(view: WidgetView)

  /** The element's fields: the stored configuration (undefined until
      `initialize`), the last stored response (undefined until a call
      succeeds, and again after a call answers with a falsy body), the
      rendered content, and the calls sent and not yet settled. */
  datatype Widget = Widget(
    config: Option<Config.ICWConfig>,
    data: Option<ICWResponse>,
    content: Content,
    inFlight: seq<ApiCall>
  )

  /** A freshly constructed element. */
  const Fresh := Widget(None, None, Blank, [])

  /** The quote service as the widget sees it: a call settles with the
      parsed JSON body, or rejects with an error message. The body is None
      when it is falsy (`null`); the service does not check its shape. */
  type Service = ApiCall -> Result<Option<ICWResponse>, string>

  /** A call of the host's toggle callback with the checkbox state. */
  datatype Invocation = Invocation(callback: Config.Callback, checked: bool)

  const ErrorPrefix := "Error: "

  predicate Configured(w: Widget) {
    w.config.Some? && Config.Resolved(w.config.value)
  }

  /** The states the element's own methods can reach: a stored
      configuration always has its defaults in place, and only a configured
      element has sent a call or stored a response. */
  predicate Reachable(w: Widget) {
    && (w.config.Some? ==> Config.Resolved(w.config.value))
    && (w.data.Some? ==> w.config.Some?)
    && (|w.inFlight| > 0 ==> w.config.Some?)
  }

  /** `initialize`: the stored configuration is replaced by the defaulted
      copy of `c`. Nothing is fetched or rendered. */
  function Initialize(w: Widget, c: Config.ICWConfig): (r: Widget)
    ensures Configured(r)
    ensures r.config == Some(Config.Initialize(c))
    ensures r.data == w.data && r.content == w.content && r.inFlight == w.inFlight
  {
    w.(config := Some(Config.Initialize(c)))
  }

  /** A second `initialize` fully replaces what the first stored. */
  lemma InitializeReplaces(w: Widget, a: Config.ICWConfig, b: Config.ICWConfig)
    ensures Initialize(Initialize(w, a), b) == Initialize(w, b)
  {
  }

  function RenderLoading(w: Widget): (r: Widget)
    ensures r.content == LoadingIndicator
    ensures r.config == w.config && r.data == w.data && r.inFlight == w.inFlight
  {
    w.(content := LoadingIndicator)
  }

  /** `renderError`: the content becomes `Error: ` followed by the message. */
  function RenderError(w: Widget, message: string): (r: Widget)
    ensures r.content.ErrorMessage?
    ensures |r.content.text| == |ErrorPrefix| + |message|
    ensures r.content.text[..|ErrorPrefix|] == ErrorPrefix
    ensures r.content.text[|ErrorPrefix|..] == message
    ensures r.config == w.config && r.data == w.data && r.inFlight == w.inFlight
  {
    w.(content := ErrorMessage(ErrorPrefix + message))
  }

  /** `renderWidget`: with no stored response nothing happens; otherwise the
      content is replaced by the view of the response. */
  function RenderWidget(w: Widget): (r: Widget)
    ensures w.data.None? ==> r == w
    ensures r.config == w.config && r.data == w.data && r.inFlight == w.inFlight
    ensures w.data.Some? ==> r.content.QuoteView?
    ensures w.data.Some? ==> r.content.view.quote == w.data.value.quoteLiteral
    ensures w.data.Some? ==>
      (r.content.view.perils.NoPerilsPlaceholder? <==> |w.data.value.perils| == 0)
    ensures w.data.Some? && r.content.view.perils.PerilList? ==>
      r.content.view.perils.entries == PerilEntries(w.data.value.perils)
    ensures w.data.Some? ==> r.content.view.links == LinkEntries(w.data.value.links)
    ensures w.data.Some? ==> r.content.view.underwriter == UnderwriterLine(w.data.value.underwriter)
    ensures w.data.Some? ==>
      (r.content.view.toggleWired <==> w.config.Some? && w.config.value.onProtectionToggle.Some?)
  {
    match w.data
    case None => w
    case Some(d) =>
      var hasCallback := w.config.Some? && w.config.value.onProtectionToggle.Some?;
      w.(content := QuoteView(ComposeView(d, hasCallback)))
  }

  /** Rendering fully replaces whatever was shown before. */
  lemma RenderReplacesContent(w: Widget, x: Content, y: Content)
    requires w.data.Some?
    ensures RenderWidget(w.(content := x)) == RenderWidget(w.(content := y))
  {
  }

  /** `connectedCallback` up to the first `await` of `fetchAndRender`: the
      loading indicator is shown and one call, built from the configuration
      stored now, is sent. The element expects to be configured before it is
      attached. */
  function ConnectedCallback(w: Widget): (r: Widget)
    requires Configured(w)
    ensures r.content == LoadingIndicator
    ensures r.config == w.config && r.data == w.data
    ensures |r.inFlight| == |w.inFlight| + 1 && r.inFlight[..|w.inFlight|] == w.inFlight
    ensures var c := w.config.value;
      r.inFlight[|w.inFlight|] == ApiCall(c.apiKey.value, ConfigureRequest(c.currency, c.items, c.locale.value))
  {
    var loading := RenderLoading(w);
    loading.(inFlight := w.inFlight + [Config.Request(w.config.value)])
  }

  /** The element with its `i`th sent call taken off the pending list. */
  function Withdraw(w: Widget, i: nat): (r: Widget)
    requires i < |w.inFlight|
    ensures |r.inFlight| == |w.inFlight| - 1
    ensures r.config == w.config && r.data == w.data && r.content == w.content
  {
    w.(inFlight := w.inFlight[..i] + w.inFlight[i + 1..])
  }

  /** The rest of `fetchAndRender`, once the `i`th sent call settles: the
      answer to that call is stored as received and the element, with the
      configuration it has now, is rendered. A rejection propagates with
      nothing stored. */
  function FetchAndRender(w: Widget, i: nat, service: Service): (r: Result<Widget, string>)
    requires i < |w.inFlight|
    ensures var outcome := service(w.inFlight[i]);
      && (r.Success? <==> outcome.Success?)
      && (outcome.Failure? ==> r.error == outcome.error)
      && (outcome.Success? ==> r.value.data == outcome.value)
      && (outcome.Success? ==> r.value.config == w.config)
      && (outcome.Success? ==> r.value.inFlight == w.inFlight[..i] + w.inFlight[i + 1..])
      && (outcome.Success? && outcome.value.Some? ==>
            r.value == RenderWidget(Withdraw(w, i).(data := outcome.value)))
      && (outcome.Success? && outcome.value.None? ==> r.value.content == w.content)
  {
    var rest := Withdraw(w, i);
    match service(w.inFlight[i])
    case Success(body) => Success(RenderWidget(rest.(data := body)))
    case Failure(e) => Failure(e)
  }

  /** The promise chain `fetchAndRender().catch(renderError)` settling for
      the `i`th sent call: the call is consumed, and a rejection shows its
      message without touching the stored response. */
  function Settle(w: Widget, i: nat, service: Service): (r: Widget)
    requires i < |w.inFlight|
    ensures r.config == w.config
    ensures r.inFlight == w.inFlight[..i] + w.inFlight[i + 1..]
    ensures var outcome := service(w.inFlight[i]);
      && (outcome.Success? ==> r == FetchAndRender(w, i, service).value)
      && (outcome.Failure? ==> r.data == w.data
                                && r.content == ErrorMessage(ErrorPrefix + outcome.error))
  {
    match FetchAndRender(w, i, service)
    case Success(w') => w'
    case Failure(e) => RenderError(Withdraw(w, i), e)
  }

  /** Attaching and then seeing the call settle: the loading indicator
      first, then the quote view when the service answers with a response,
      `Error: <message>` when it rejects, and the loading indicator for good
      when it answers with a falsy body. */
  lemma AttachThenSettle(w: Widget, service: Service)
    requires Configured(w)
    ensures var attached := ConnectedCallback(w);
      var settled := Settle(attached, |w.inFlight|, service);
      var outcome := service(Config.Request(w.config.value));
      && attached.content == LoadingIndicator
      && settled.inFlight == w.inFlight
      && (outcome.Success? && outcome.value.Some? ==>
            settled.data == outcome.value
            && settled.content.QuoteView?
            && settled.content.view.quote == outcome.value.value.quoteLiteral)
      && (outcome.Success? && outcome.value.None? ==>
            settled.data.None? && settled.content == LoadingIndicator)
      && (outcome.Failure? ==>
            settled.data == w.data && settled.content == ErrorMessage(ErrorPrefix + outcome.error))
  {
    var attached := ConnectedCallback(w);
    var n := |w.inFlight|;
    assert attached.inFlight[n] == Config.Request(w.config.value);
    assert attached.inFlight[..n] + attached.inFlight[n + 1..] == w.inFlight;
  }

  /** The checkbox's change listener. It is attached by `renderWidget`, and
      it looks up the callback in the configuration current at the time of
      the change, passing the checkbox's state. */
  function ToggleChange(w: Widget, checked: bool): (r: Option<Invocation>)
    ensures r.Some? ==> r.value.checked == checked
    ensures r.Some? <==> w.content.QuoteView? && w.content.view.toggleWired
                         && w.config.Some? && w.config.value.onProtectionToggle.Some?
    ensures r.Some? ==> r.value.callback == w.config.value.onProtectionToggle.value
  {
    if w.content.QuoteView? && w.content.view.toggleWired
       && w.config.Some? && w.config.value.onProtectionToggle.Some?
    then Some(Invocation(w.config.value.onProtectionToggle.value, checked))
    else None
  }

  /** Every element method keeps the element in a reachable state. */
  lemma MethodsPreserveReachable(w: Widget, c: Config.ICWConfig, message: string, i: nat, service: Service)
    requires Reachable(w)
    ensures Reachable(Initialize(w, c))
    ensures Reachable(RenderLoading(w))
    ensures Reachable(RenderError(w, message))
    ensures Reachable(RenderWidget(w))
    ensures Configured(w) ==> Reachable(ConnectedCallback(w))
    ensures i < |w.inFlight| ==> Reachable(Settle(w, i, service))
  {
  }

  /** After a successful attachment, every change of the checkbox calls the
      configured callback (the no-op one when none was given) with the
      checkbox's state. */
  lemma ToggleReachesConfiguredCallback(w: Widget, c: Config.ICWConfig, service: Service, checked: bool)
    requires var outcome := service(Config.Request(Config.Initialize(c)));
      outcome.Success? && outcome.value.Some?
    ensures var attached := ConnectedCallback(Initialize(w, c));
      var settled := Settle(attached, |w.inFlight|, service);
      ToggleChange(settled, checked)
        == Some(Invocation(c.onProtectionToggle.GetOr(Config.NoOp), checked))
  {
    AttachThenSettle(Initialize(w, c), service);
  }

  /** Re-initialising a rendered element does not re-render it, but the
      existing listener then calls the new callback. */
  lemma ReinitializeRetargetsToggle(w: Widget, c: Config.ICWConfig, checked: bool)
    requires w.content.QuoteView? && w.content.view.toggleWired
    ensures Initialize(w, c).content == w.content
    ensures ToggleChange(Initialize(w, c), checked)
      == Some(Invocation(Config.Initialize(c).onProtectionToggle.value, checked))
  {
  }
}
