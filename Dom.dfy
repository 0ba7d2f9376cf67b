/** The host page as the extractors see it. An element carries its `textContent`,
    its attributes, and what `querySelector` / `querySelectorAll` answer for each
    selector the extractors ask about: the selector engine itself is an oracle. */
module Dom {
  import opened Wrappers
  import opened Text

  datatype Element = Element(
    text: string,
    one: map<string, Element>,
    all: map<string, seq<Element>>,
    attrs: map<string, string>)

  /** `e.querySelector(sel)`. */
  function Query(e: Element, sel: string): Option<Element> {
    if sel in e.one then Some(e.one[sel]) else None
  }

  /** `e.querySelectorAll(sel)`. */
  function QueryAll(e: Element, sel: string): seq<Element> {
    if sel in e.all then e.all[sel] else []
  }

  /** `e.getAttribute(name)`. */
  function Attr(e: Element, name: string): Option<string> {
    if name in e.attrs then Some(e.attrs[name]) else None
  }

  /** `q(s0) || q(s1) || ...`: the element of the first selector that matches. */
  function QueryFirst(e: Element, sels: seq<string>): (r: Option<Element>)
    ensures r.Some? <==> exists i :: 0 <= i < |sels| && Query(e, sels[i]).Some?
    ensures r.Some? ==> exists i :: 0 <= i < |sels| && r == Query(e, sels[i])
                                    && forall j :: 0 <= j < i ==> Query(e, sels[j]).None?
  {
    if sels == [] then None
    else if Query(e, sels[0]).Some? then Query(e, sels[0])
    else
      var r := QueryFirst(e, sels[1..]);
      assert forall i :: 0 < i < |sels| ==> sels[i] == sels[1..][i - 1];
      r
  }

  /** A JavaScript string is truthy when it is not empty. */
  predicate Truthy(o: Option<string>) {
    o.Some? && o.value != ""
  }

  /** `x || null` for a string. */
  function NonEmpty(s: string): (r: Option<string>)
    ensures r.Some? <==> s != ""
    ensures r.Some? ==> r.value == s
  {
    if s == "" then None else Some(s)
  }

  /** `el?.textContent?.trim() || null`. */
  function TextOf(el: Option<Element>): (r: Option<string>)
    ensures r.Some? ==> r.value != "" && IsTrimmed(r.value)
    ensures r.Some? <==> el.Some? && !AllSpace(el.value.text)
    ensures r.Some? ==> r.value == Trim(el.value.text)
  {
    match el
    case None => None
    case Some(e) => NonEmpty(Trim(e.text))
  }

  /** `getText(selector)` of the extractors: the trimmed text of the first element
      matching the selector, or null when none matches or the text is blank. */
  function GetText(doc: Element, sel: string): (r: Option<string>)
    ensures r.Some? <==> Query(doc, sel).Some? && !AllSpace(Query(doc, sel).value.text)
    ensures r.Some? ==> r.value == Trim(Query(doc, sel).value.text) && r.value != "" && IsTrimmed(r.value)
  {
    TextOf(Query(doc, sel))
  }

  /** `c0 || c1 || ... || null` over candidates that are null or non-empty. */
  function FirstSome(cands: seq<Option<string>>): (r: Option<string>)
    ensures r.Some? <==> exists i :: 0 <= i < |cands| && cands[i].Some?
    ensures r.Some? ==> exists i :: 0 <= i < |cands| && r == cands[i]
                                    && forall j :: 0 <= j < i ==> cands[j].None?
  {
    if cands == [] then None
    else if cands[0].Some? then cands[0]
    else
      var r := FirstSome(cands[1..]);
      assert forall i :: 0 < i < |cands| ==> cands[i] == cands[1..][i - 1];
      r
  }

  /** `getText(s0) || getText(s1) || ... || null`: the first non-null candidate,
      in the listed order. */
  function FirstText(doc: Element, sels: seq<string>): (r: Option<string>)
    ensures r.Some? <==> exists i :: 0 <= i < |sels| && GetText(doc, sels[i]).Some?
    ensures r.Some? ==> exists i :: 0 <= i < |sels| && r == GetText(doc, sels[i])
                                    && forall j :: 0 <= j < i ==> GetText(doc, sels[j]).None?
  {
    var cands := seq(|sels|, i requires 0 <= i < |sels| => GetText(doc, sels[i]));
    assert forall i :: 0 <= i < |sels| ==> cands[i] == GetText(doc, sels[i]);
    FirstSome(cands)
  }
}
