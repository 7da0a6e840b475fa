# Insurance cart widget — a Dafny model

The widget is a browser custom element (`protecht-icw`) that takes a cart
configuration, posts it to a quote service, and renders the quote: the
quote total, the covered perils, informational links, the underwriter, and a
"protect my purchase" checkbox whose changes are forwarded to a host
callback. A factory, `createICWWidget`, finds or creates the element inside
a named container.

This project models the part of that code that makes decisions, as pure
functions over immutable values:

- `Icons` (`src/components/utils.ts`): the icon table, the link-label
  table, and the icon markup builder with its fallback glyph and optional
  tooltip attributes, modelled exactly as strings.
- `Config` (`initialize`): the default-filling copy of the configuration,
  with JavaScript `||` semantics (a missing or empty string takes the
  default). `JsValues` holds that truthiness rule and the way a template
  literal prints a missing property.
- `Render` (`renderWidget`): the rendered markup abstracted to a structured
  view (quote literal, perils region, links region, underwriter line, and
  whether the checkbox listener was attached).
- `Widget` (`connectedCallback`, `fetchAndRender`, `renderLoading`,
  `renderError`, `renderWidget`, the checkbox listener): the element's
  fields as a value, each method a transition. The quote service is a
  parameter from a call (key and body) to `Result<Option<response>, message>`,
  where `None` stands for a falsy JSON body such as `null`. A call is sent
  when the element is attached, from the configuration stored at that
  moment. It is kept as pending until it settles; the rest of
  `fetchAndRender` then runs on the element as it is at that later time.
  Several pending calls may settle in any order, and the last one to settle
  wins.
- `Factory` (`createICWWidget`): a transition on an abstract page, which
  holds the container ids present, the widget tagged for each container id,
  and the log of `appendChild` calls.
- `Types` mirrors `src/api/types.ts`; `Wrappers` holds `Option`/`Result`.

## Where the code and its description differ

The model follows the code in each case.

- Perils are rendered from `p.description` (`src/components/ICWWidget.ts:125`).
  The peril type declares only `icon`, `id` and `name` (`src/api/types.ts:31-35`).
  The model therefore gives `Peril` an optional `description` property. A
  peril without one renders as the text `undefined`
  (`Render.DeclaredPerilShowsUndefined`).
- The link label is the raw `type` (`src/components/ICWWidget.ts:136`).
  `translateLink` is not consulted, and neither is the icon builder of
  `utils.ts`. No icon or tooltip appears in the perils region.
- With no stored response, `renderWidget` returns silently and leaves the
  content as it was (`src/components/ICWWidget.ts:59`). The test at
  `src/components/ICWWidget.test.ts:126-133` expects an error message
  instead. The branch is reached when the service answers with a falsy body
  such as `null`: the HTTP client does not check the body
  (`src/api/httpClient.ts:22`), `fetchAndRender` stores it (`src/components/ICWWidget.ts:54`),
  and the element keeps showing the loading indicator for good, with neither
  a quote nor an error (`Widget.AttachThenSettle`).
- The test at `src/components/ICWWidget.test.ts:162-166` expects the text
  `Total: $10.00`. The code writes a `Quote Total` heading and then the quote
  literal in its own element (`src/components/ICWWidget.ts:108-109`). The
  model keeps only the quote literal.
- The loading text in the code is written as `Loading insurance quoteâ€¦`: the
  ellipsis is mis-encoded, and the page shows those three characters. The test
  at `src/components/ICWWidget.test.ts:110-115` expects different text. The
  model keeps the loading indicator abstract.

## Model

| member | source | states |
|---|---|---|
| `Icons.LookupIcon` | src/components/utils.ts:9-17 | indexing the icon table yields a value exactly for the seven table keys, and that value is the table's glyph |
| `Icons.MappedGlyphsAreProper` | src/components/utils.ts:9-17 | every glyph in the table is non-empty and differs from `help_outline` |
| `Icons.CreateMaterialIcon` | src/components/utils.ts:1-7 | the markup always starts with `<span class="material-icons"` and ends with `</span>` |
| `Icons.KnownIconShowsMappedGlyph` | src/components/utils.ts:2-6 | a known name shows its mapped glyph (e.g. `CarCrash` shows `car_crash`), whatever the tooltip |
| `Icons.UnknownIconShowsFallback` | src/components/utils.ts:6 | an unknown name shows exactly `help_outline` |
| `Icons.FallbackIffAbsent` | src/components/utils.ts:2-17 | the fallback glyph is shown if and only if the name is not a key of the table |
| `Icons.TooltipGivesTitleThenAriaLabel` | src/components/utils.ts:4-6 | with a non-empty tooltip T, the opening tag is the class attribute, then ` title="T"`, then ` aria-label="T"`, then `>` |
| `Icons.NoTooltipGivesBareSpan` | src/components/utils.ts:4-6 | with an absent or empty tooltip, the markup is exactly `<span class="material-icons">` + glyph + `</span>` |
| `Icons.ReadGlyphInvertsCreate` | src/components/utils.ts:6 | reading the text between the first `>` and `</span>` back out of the markup recovers the glyph, when the tooltip holds no `>` |
| `Icons.TranslateLinkTable` | src/components/utils.ts:19-23 | the link-label table has exactly the keys `faq`, `help_center`, `RefundTerms`, labelled `FAQ`, `Help Center`, `Refund Terms` |
| `Config.Initialize` | src/components/ICWWidget.ts:31-40 | a falsy `apiKey` becomes the sandbox key and a falsy `locale` becomes `en_US`; truthy values are kept; a missing callback becomes the no-op one and a given callback is kept; container id, currency and items are copied unchanged |
| `Config.InitializeKeepsResolved` | src/components/ICWWidget.ts:32-37 | a configuration with every default already in place is stored as given |
| `Config.InitializeIdempotent` | src/components/ICWWidget.ts:32-37 | storing a stored configuration again changes nothing |
| `Config.Request` | src/components/ICWWidget.ts:51-53 | the call sends the stored API key, and a body whose currency, items and locale are those of the stored configuration |
| `Config.InitializeFalsyFieldsAgree` | src/components/ICWWidget.ts:34-35 | an empty `apiKey` or `locale` is treated exactly like a missing one |
| `Render.PerilEntries` | src/components/ICWWidget.ts:122-128 | one entry per peril, in input order, each the peril's `description` as the template prints it |
| `Render.PerilsRegionOf` | src/components/ICWWidget.ts:121-131 | the perils region is the placeholder if and only if there are no perils; otherwise it lists one entry per peril in order |
| `Render.PerilEntriesAppend` | src/components/ICWWidget.ts:122-128 | appending a peril to the list appends exactly its entry to the region |
| `Render.DeclaredPerilShowsUndefined` | src/components/ICWWidget.ts:125 | a peril carrying only its declared properties renders as `undefined` |
| `Render.LinkEntries` | src/components/ICWWidget.ts:134-137 | one link entry per link, in input order, pointing at the link's URL and labelled with its raw type |
| `Render.LinksRoundTrip` | src/components/ICWWidget.ts:134-137 | the link list can be read back from the links region unchanged |
| `Render.UnderwriterLine` | src/components/ICWWidget.ts:140-144 | the underwriter line is the name, then ` (`, then the legal name, then `)` |
| `Render.UnderwriterLineInjective` | src/components/ICWWidget.ts:143 | when the names hold no ` (`, the underwriter line determines both the name and the legal name |
| `Widget.Initialize` | src/components/ICWWidget.ts:31-40 | `initialize` stores the defaulted configuration; it touches neither the stored response, the content nor the pending calls, so it sends nothing |
| `Widget.InitializeReplaces` | src/components/ICWWidget.ts:32-37 | a second `initialize` fully replaces the first |
| `Widget.RenderLoading` | src/components/ICWWidget.ts:42-44 | the content becomes the loading indicator; configuration and response are kept |
| `Widget.RenderError` | src/components/ICWWidget.ts:46-48 | the content becomes an error text made of `Error: ` followed by the message |
| `Widget.RenderWidget` | src/components/ICWWidget.ts:58-154 | with no response nothing changes; with one, the content is the quote view: the quote literal, the perils region (placeholder iff no perils), the links and the underwriter line of that response, and the checkbox listener is attached iff a callback is configured |
| `Widget.RenderReplacesContent` | src/components/ICWWidget.ts:63-117 | what rendering shows does not depend on what was shown before |
| `Widget.ConnectedCallback` | src/components/ICWWidget.ts:24-28 | attachment shows the loading indicator and sends exactly one more call, made of the stored key and the body `{currency, items, locale}` of the configuration stored at that moment |
| `Widget.FetchAndRender` | src/components/ICWWidget.ts:50-56 | when a pending call settles, it is consumed. On success its answer is stored unchanged and the element is rendered with its current configuration; a falsy answer leaves the content as it was. On failure the same error is returned and nothing is stored |
| `Widget.Settle` | src/components/ICWWidget.ts:27 | a settled call is consumed. A success is handled by `fetchAndRender`; a rejection shows `Error: <message>` and keeps the stored response |
| `Widget.AttachThenSettle` | src/components/ICWWidget.ts:24-59 | attaching then settling shows the loading indicator first, then the quote view for a response, `Error: <message>` for a rejection, and the loading indicator for good for a falsy body |
| `Widget.ToggleChange` | src/components/ICWWidget.ts:146-153 | a checkbox change calls the callback of the current configuration with the checked state, exactly when the rendered view has the listener attached |
| `Widget.MethodsPreserveReachable` | src/components/ICWWidget.ts:24-59 | every element method keeps the state reachable: a stored configuration is defaulted, and a stored response or a pending call implies a configuration |
| `Widget.ToggleReachesConfiguredCallback` | src/components/ICWWidget.ts:146-153 | after a successful attachment, a checkbox change calls the configured callback (the no-op one if none was given) with the checked state |
| `Widget.ReinitializeRetargetsToggle` | src/components/ICWWidget.ts:148-152 | re-initialising a rendered element keeps the view, and the listener then calls the new callback |
| `Factory.Append` | src/components/ICWWidget.ts:175 | appending adds the element under its id and logs one append; the element shows the loading indicator and has sent one call built from its configuration; no other widget changes |
| `Factory.CreateICWWidget` | src/components/ICWWidget.ts:163-179 | a missing container, or an empty container id, fails with the not-found message. A widget already tagged for the id is re-initialised in place: nothing is appended, rendered or sent. Otherwise exactly one new widget is created under that id, initialised, appended once and shown loading, with one call sent. No other widget changes |
| `Factory.EmptyIdNotFound` | src/components/ICWWidget.ts:164-167 | an empty container id fails with `Container "" not found.` whatever the page holds, since `getElementById("")` finds no element |
| `Factory.NotFoundNamesContainer` | src/components/ICWWidget.ts:164-167 | the error message is `Container "`, the container id verbatim, then `" not found.` |
| `Factory.SettleFetch` | src/components/ICWWidget.ts:27 | only a pending call can settle, and settling consumes it; only the widget that sent it changes |
| `Factory.CreatePreservesReachable` | src/components/ICWWidget.ts:163-179 | the factory keeps every widget on the page in a reachable state |
| `Factory.SettlePreservesReachable` | src/components/ICWWidget.ts:27 | settling a pending call keeps every widget on the page in a reachable state |
| `Factory.CreatedWidgetForwardsToggle` | src/components/ICWWidget.ts:171-175 | a widget the factory creates, once its fetch succeeds, forwards checkbox changes to the configured callback with the checked state |
| `Factory.SecondCallReuses` | src/components/ICWWidget.ts:170-178 | a second factory call for the same container re-initialises the widget the first call created; it appends nothing and sends no call |
| `Factory.ReinitializedBeforeSettle` | src/components/ICWWidget.ts:50-56 | create with `a`, re-initialise with `b`, then settle: the stored response is the answer to the call built from `a`, and the checkbox calls `b`'s callback |

## Left out

- The HTTP client (`src/api/httpClient.ts`): the network call is the `Service` parameter. Its error text `API Error <status>: <body>` is whatever message the service returns.
- Markup details: exact HTML, whitespace, CSS (`src/styles/styles.ts` and the inline style block), and the absence of HTML escaping. The render view keeps only the structure.
- Factory.CreateICWWidget: assumes the container id is safe to insert into the CSS selector. The source inserts it unescaped (`src/components/ICWWidget.ts:170`). For an existing container, an id containing `"` or a line break makes the lookup throw a syntax error. An id containing `\` is read as a CSS escape, so the tagged widget is never found and each call appends another one. The model always finds the tagged widget.
- Widget.FetchAndRender: does not model a truthy answer whose shape is not a quote response (a number, or an object without `perils`). The source would then fail inside `renderWidget` and show the resulting error.
- `Icons.ReadGlyphInvertsCreate`: requires a tooltip without `>`. A tooltip containing `>` is inserted unescaped and breaks the read-back.
- Shadow DOM, custom-element registration (`src/components/ICWWidget.ts:158-160`), listener wiring mechanics and `console.log`: browser plumbing with no decision in it.
- The DOM-building `createMaterialIcon` at `src/components/ICWWidget.ts:183-188`: it is never called.
- Lookups of JavaScript prototype keys such as `toString` in the icon table: the table is modelled as a plain map.
- Widget.ConnectedCallback: requires a configured element, as the comment at `src/components/ICWWidget.ts:25` expects. Attaching an element that was never initialised rejects with an engine-specific `TypeError` message; this is not modelled.
- A stored response without a stored configuration would make `renderWidget` throw. No element method reaches that state (`Widget.MethodsPreserveReachable`), so the model does not include it.
- Floating-point quantities: `quantity` is an `int`.
- Build and test scaffolding (`rollup.config.js`, `vite.config.js`, `src/test/setup.ts`).
