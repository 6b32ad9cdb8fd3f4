/** What the page objects see of the browser: the elements a locator found,
    each with its visible text and its attributes. Looking elements up,
    waiting for them and clicking them is the browser's business; here the
    found elements are an input and a click is recorded as an index. */
module Elements {
  import opened Base

  datatype Element = Element(text: string, attributes: map<string, string>)

  /** `element.get_attribute(name)`: `None` when the attribute is absent. */
  function GetAttribute(e: Element, name: string): (r: Option<string>)
    ensures r.Some? <==> name in e.attributes
    ensures r.Some? ==> r.value == e.attributes[name]
  {
    if name in e.attributes then Some(e.attributes[name]) else None
  }

  /** The guarded click shared by `click_search_result_by_index` and
      `click_related_video`: the element at `index` is clicked when the index
      is in range, and the Python result is whether a click happened. */
  function ClickAt(found: seq<Element>, index: int): (clicked: Option<nat>)
    ensures clicked.Some? <==> 0 <= index < |found|
    ensures clicked.Some? ==> clicked.value == index
  {
    if 0 <= index < |found| then Some(index) else None
  }
}
