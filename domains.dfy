/**
 * The closed set of learning domains and their display labels. Both the chat
 * route and the dashboard keep the same `domainNames` record; it is defined
 * once here.
 */
module Domains {

  /** Internal domain key to human-readable label. */
  const DomainNames: map<string, string> := map[
    "software-engineering" := "Software Engineering",
    "data-science" := "Data Science",
    "product-design" := "Product Design"
  ]

  /** The domain cards the selection screen offers, as (key, shown name), in screen order. */
  const SelectableDomains: seq<(string, string)> := [
    ("software-engineering", "Software Engineering"),
    ("data-science", "Data Science"),
    ("product-design", "Product Design")
  ]

  /** `domainNames[key] || key`: the mapped label, or the key itself when it is unmapped. */
  function Label(key: string): (r: string)
    ensures key in DomainNames ==> r == DomainNames[key]
    ensures key !in DomainNames ==> r == key
    ensures key != "" ==> r != ""
  {
    if key in DomainNames && DomainNames[key] != "" then DomainNames[key] else key
  }

  /**
   * The label table and the selection screen agree: exactly the selectable keys are
   * mapped, each to the name its card shows.
   */
  lemma SelectableDomainsAreLabelled()
    ensures DomainNames.Keys == set i | 0 <= i < |SelectableDomains| :: SelectableDomains[i].0
    ensures forall i :: 0 <= i < |SelectableDomains| ==>
              Label(SelectableDomains[i].0) == SelectableDomains[i].1
  {
    var keys := set i | 0 <= i < |SelectableDomains| :: SelectableDomains[i].0;
    assert SelectableDomains[0].0 in keys && SelectableDomains[1].0 in keys && SelectableDomains[2].0 in keys;
  }
}
