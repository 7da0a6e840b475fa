/** The two pieces of JavaScript value semantics the widget relies on:
    truthiness of an optional string (`x || d`), and how a template literal
    prints an optional string (`${x}`). */
module JsValues {
  import opened Wrappers

  /** A string-valued field is truthy when it is present and non-empty:
      `undefined` and `""` are both falsy. */
  predicate Truthy(o: Option<string>) {
    o.Some? && o.value != ""
  }

  /** `o || d` for an optional string: the value when truthy, else `d`. */
  function Or(o: Option<string>, d: string): (r: string)
    ensures Truthy(o) ==> r == o.value
    ensures !Truthy(o) ==> r == d
  {
    if o.Some? && o.value != "" then o.value else d
  }

  /** What `${o}` inserts into a template literal: the string itself, or
      the word `undefined` for a missing property. */
  function TemplateText(o: Option<string>): (r: string)
    ensures o.Some? ==> r == o.value
    ensures o.None? ==> r == "undefined"
  {
    match o
    case Some(s) => s
    case None => "undefined"
  }
}
