/** The widget's configuration record and `initialize`'s default filling. */
module Config {
  import opened Wrappers
  import opened JsValues
  import opened Types

  /** A host-page function, identified abstractly. `NoOp` is the empty
      function the widget substitutes when none is given. */
  datatype Callback = NoOp | Host(handle: nat)

  /** The configuration a host passes in. `apiKey` and `locale` may be
      missing or empty, and the callback may be missing. */
  datatype ICWConfig = ICWConfig(
    containerId: string,
    apiKey: Option<string>,
    currency: string,
    items: seq<Item>,
    locale: Option<string>,
    onProtectionToggle: Option<Callback>
  )

  const SandboxApiKey := "pk_sandbox_fea992c0c535b522f2f5d8fae68725ac0c480da6"
  const DefaultLocale := "en_US"

  /** A configuration whose defaulted fields are all filled in. */
  predicate Resolved(c: ICWConfig) {
    Truthy(c.apiKey) && Truthy(c.locale) && c.onProtectionToggle.Some?
  }

  /** The record `initialize` stores: a copy of `c` in which a falsy
      `apiKey` or `locale` and a missing callback are replaced by defaults. */
  function Initialize(c: ICWConfig): (r: ICWConfig)
    ensures Resolved(r)
    ensures r.containerId == c.containerId && r.currency == c.currency && r.items == c.items
    ensures Truthy(c.apiKey) ==> r.apiKey == c.apiKey
    ensures !Truthy(c.apiKey) ==> r.apiKey == Some(SandboxApiKey)
    ensures Truthy(c.locale) ==> r.locale == c.locale
    ensures !Truthy(c.locale) ==> r.locale == Some(DefaultLocale)
    ensures c.onProtectionToggle.Some? ==> r.onProtectionToggle == c.onProtectionToggle
    ensures c.onProtectionToggle.None? ==> r.onProtectionToggle == Some(NoOp)
  {
    c.(
      apiKey := Some(Or(c.apiKey, SandboxApiKey)),
      locale := Some(Or(c.locale, DefaultLocale)),
      onProtectionToggle := Some(c.onProtectionToggle.GetOr(NoOp))
    )
  }

  /** A configuration that already has every default in place is stored as
      given: initialising is idempotent. */
  lemma InitializeKeepsResolved(c: ICWConfig)
    requires Resolved(c)
    ensures Initialize(c) == c
  {
  }

  lemma InitializeIdempotent(c: ICWConfig)
    ensures Initialize(Initialize(c)) == Initialize(c)
  {
    InitializeKeepsResolved(Initialize(c));
  }

  /** Two configurations that agree on everything but falsy or missing
      defaulted fields are stored identically: the stored record depends
      only on the caller's truthy values. */
  lemma InitializeFalsyFieldsAgree(c: ICWConfig)
    ensures Initialize(c.(apiKey := if Truthy(c.apiKey) then c.apiKey else None,
                          locale := if Truthy(c.locale) then c.locale else None)) == Initialize(c)
  {
  }

  /** The call `fetchAndRender` makes: the stored key, and the body built
      from the stored currency, items and locale. */
  function Request(c: ICWConfig): (r: ApiCall)
    requires c.apiKey.Some? && c.locale.Some?
    ensures r.apiKey == c.apiKey.value
    ensures r.payload.currency == c.currency && r.payload.items == c.items
    ensures r.payload.locale == c.locale.value
  {
    ApiCall(c.apiKey.value, ConfigureRequest(c.currency, c.items, c.locale.value))
  }
}
