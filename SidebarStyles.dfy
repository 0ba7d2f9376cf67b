/** The host page as the sidebar code sees it: the ids of the elements in
    `document.head` and `document.body`, in document order, and the idempotent
    injection and removal of the two `<style>` elements (their CSS text is not
    part of this model). */
module SidebarStyles {

  const SidebarStylesId := "gogio-sidebar-styles"
  const AppStylesId := "gogio-app-styles"

  /** `s` without its first occurrence of `x`. */
  function RemoveFirst(s: seq<string>, x: string): (r: seq<string>)
    ensures x in s ==> multiset(r) == multiset(s) - multiset{x} && |r| == |s| - 1
    ensures x !in s ==> r == s
  {
    if s == [] then s
    else if s[0] == x then
      assert s == [s[0]] + s[1..];
      s[1..]
    else
      assert s == [s[0]] + s[1..];
      [s[0]] + RemoveFirst(s[1..], x)
  }

  class Document {
    var head: seq<string>
    var body: seq<string>

    constructor (head0: seq<string>, body0: seq<string>)
      ensures head == head0 && body == body0
    {
      head, body := head0, body0;
    }

    /** How many elements carry the id. */
    function Count(id: string): nat
      reads this
    {
      multiset(head + body)[id]
    }

    /** `document.getElementById(id) != null`. */
    predicate Has(id: string)
      reads this
    {
      id in head || id in body
    }

    /** `document.getElementById(id)?.remove()`: the first element in document
        order that carries the id leaves the page. */
    method RemoveById(id: string)
      modifies this
      ensures id in old(head) ==> head == RemoveFirst(old(head), id) && body == old(body)
      ensures id !in old(head) ==> head == old(head) && body == RemoveFirst(old(body), id)
      ensures Count(id) == if old(Has(id)) then old(Count(id)) - 1 else old(Count(id))
      ensures forall other :: other != id ==> Count(other) == old(Count(other))
    {
      if id in head {
        head := RemoveFirst(head, id);
      } else if id in body {
        body := RemoveFirst(body, id);
      }
    }

    /** `document.head.appendChild(el)` for a new element carrying the id. */
    method AppendToHead(id: string)
      modifies this
      ensures head == old(head) + [id] && body == old(body)
      ensures Count(id) == old(Count(id)) + 1
      ensures forall other :: other != id ==> Count(other) == old(Count(other))
    {
      head := head + [id];
    }

    /** `document.body.appendChild(el)` for a new element carrying the id. */
    method AppendToBody(id: string)
      modifies this
      ensures body == old(body) + [id] && head == old(head)
      ensures Count(id) == old(Count(id)) + 1
      ensures forall other :: other != id ==> Count(other) == old(Count(other))
    {
      body := body + [id];
    }
  }

  lemma CountHas(d: Document, id: string)
    ensures d.Has(id) <==> d.Count(id) > 0
  {
    assert id in d.head + d.body <==> id in multiset(d.head + d.body);
  }

  /** Shared by the two injectors: append a style element unless one with the id
      is already there. Returns whether a new element was appended. */
  method InjectStyle(d: Document, id: string) returns (appended: bool)
    modifies d
    ensures appended == !old(d.Has(id))
    ensures appended ==> d.head == old(d.head) + [id] && d.body == old(d.body)
    ensures !appended ==> d.head == old(d.head) && d.body == old(d.body)
    ensures d.Has(id)
    ensures d.Count(id) == if appended then 1 else old(d.Count(id))
    ensures forall other :: other != id ==> d.Count(other) == old(d.Count(other))
  {
    CountHas(d, id);
    if d.Has(id) {
      return false;
    }
    d.AppendToHead(id);
    appended := true;
  }

  method RemoveStyle(d: Document, id: string)
    modifies d
    ensures d.Count(id) == if old(d.Has(id)) then old(d.Count(id)) - 1 else old(d.Count(id))
    ensures !old(d.Has(id)) ==> d.head == old(d.head) && d.body == old(d.body)
    ensures old(d.Count(id)) <= 1 ==> !d.Has(id)
    ensures forall other :: other != id ==> d.Count(other) == old(d.Count(other))
  {
    d.RemoveById(id);
    CountHas(d, id);
  }

  /** `injectSidebarStyles()`. */
  method InjectSidebarStyles(d: Document) returns (appended: bool)
    modifies d
    ensures appended == !old(d.Has(SidebarStylesId))
    ensures !appended ==> d.head == old(d.head) && d.body == old(d.body)
    ensures d.Has(SidebarStylesId)
    ensures d.Count(SidebarStylesId) == if appended then 1 else old(d.Count(SidebarStylesId))
    ensures forall other :: other != SidebarStylesId ==> d.Count(other) == old(d.Count(other))
  {
    appended := InjectStyle(d, SidebarStylesId);
  }

  /** `removeSidebarStyles()`. */
  method RemoveSidebarStyles(d: Document)
    modifies d
    ensures !old(d.Has(SidebarStylesId)) ==> d.head == old(d.head) && d.body == old(d.body)
    ensures old(d.Count(SidebarStylesId)) <= 1 ==> !d.Has(SidebarStylesId)
    ensures forall other :: other != SidebarStylesId ==> d.Count(other) == old(d.Count(other))
  {
    RemoveStyle(d, SidebarStylesId);
  }

  /** `injectAppStyles()`. */
  method InjectAppStyles(d: Document) returns (appended: bool)
    modifies d
    ensures appended == !old(d.Has(AppStylesId))
    ensures !appended ==> d.head == old(d.head) && d.body == old(d.body)
    ensures d.Has(AppStylesId)
    ensures d.Count(AppStylesId) == if appended then 1 else old(d.Count(AppStylesId))
    ensures forall other :: other != AppStylesId ==> d.Count(other) == old(d.Count(other))
  {
    appended := InjectStyle(d, AppStylesId);
  }

  /** `removeAppStyles()`. */
  method RemoveAppStyles(d: Document)
    modifies d
    ensures !old(d.Has(AppStylesId)) ==> d.head == old(d.head) && d.body == old(d.body)
    ensures old(d.Count(AppStylesId)) <= 1 ==> !d.Has(AppStylesId)
    ensures forall other :: other != AppStylesId ==> d.Count(other) == old(d.Count(other))
  {
    RemoveStyle(d, AppStylesId);
  }
}
