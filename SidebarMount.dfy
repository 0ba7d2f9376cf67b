/** The sidebar mount controller: a two-state machine (mounted / unmounted) that
    injects the styles, reuses or creates the `gogio-sidebar-root` container and
    renders into it, and undoes all of it on unmount. The React root is modelled
    only as present or absent. */
module SidebarMount {
  import opened SidebarStyles

  const SidebarRootId := "gogio-sidebar-root"

  /** An id other than the container's and the two style sets'. */
  predicate Foreign(id: string) {
    id != SidebarRootId && id != SidebarStylesId && id != AppStylesId
  }

  class Controller {
    var isMounted: bool
    var hasRoot: bool   // `sidebarRoot !== null`
    const doc: Document

    /** The module's initial state over a page as it is when the script loads. */
    constructor (page: Document)
      ensures doc == page && !isMounted && !hasRoot
    {
      doc := page;
      isMounted, hasRoot := false, false;
    }

    /** What mounting and unmounting keep: at most one container and one element
        of each style set, a React root exactly while mounted, and while mounted
        all three elements on the page. */
    predicate Valid()
      reads this, doc
    {
      && doc.Count(SidebarRootId) <= 1
      && doc.Count(SidebarStylesId) <= 1
      && doc.Count(AppStylesId) <= 1
      && hasRoot == isMounted
      && (isMounted ==> doc.Has(SidebarRootId) && doc.Has(SidebarStylesId) && doc.Has(AppStylesId))
    }

    /** `mountSidebar()`. */
    method Mount()
      modifies this, doc
      ensures old(isMounted) ==> isMounted == old(isMounted) && hasRoot == old(hasRoot)
                                 && doc.head == old(doc.head) && doc.body == old(doc.body)
      ensures isMounted
      ensures !old(isMounted) ==> hasRoot && doc.Has(SidebarRootId) && doc.Has(SidebarStylesId) && doc.Has(AppStylesId)
      ensures !old(isMounted) ==> doc.Count(SidebarRootId) == if old(doc.Has(SidebarRootId)) then old(doc.Count(SidebarRootId)) else 1
      ensures forall id :: Foreign(id) ==> doc.Count(id) == old(doc.Count(id))
      ensures old(Valid()) ==> Valid()
    {
      if isMounted {
        return;
      }
      PreparePage(doc);
      hasRoot := true;
      isMounted := true;
    }

    /** `unmountSidebar()`. */
    method Unmount()
      modifies this, doc
      ensures !old(isMounted) ==> isMounted == old(isMounted) && hasRoot == old(hasRoot)
                                  && doc.head == old(doc.head) && doc.body == old(doc.body)
      ensures !isMounted
      ensures old(isMounted) ==> !hasRoot
      ensures old(Valid()) && old(isMounted) ==>
                !doc.Has(SidebarRootId) && !doc.Has(SidebarStylesId) && !doc.Has(AppStylesId)
      ensures forall id :: Foreign(id) ==> doc.Count(id) == old(doc.Count(id))
      ensures old(Valid()) ==> Valid()
    {
      if !isMounted {
        return;
      }
      IdsDistinct();
      hasRoot := false;
      doc.RemoveById(SidebarRootId);
      RemoveSidebarStyles(doc);
      RemoveAppStyles(doc);
      isMounted := false;
      CountHas(doc, SidebarRootId);
      CountHas(doc, SidebarStylesId);
      CountHas(doc, AppStylesId);
    }

    /** `toggleSidebar()`. */
    method Toggle()
      modifies this, doc
      ensures isMounted == !old(isMounted)
      ensures isMounted ==> hasRoot && doc.Has(SidebarRootId) && doc.Has(SidebarStylesId) && doc.Has(AppStylesId)
      ensures old(Valid()) && !isMounted ==>
                !hasRoot && !doc.Has(SidebarRootId) && !doc.Has(SidebarStylesId) && !doc.Has(AppStylesId)
      ensures forall id :: Foreign(id) ==> doc.Count(id) == old(doc.Count(id))
      ensures old(Valid()) ==> Valid()
    {
      if isMounted {
        Unmount();
      } else {
        Mount();
      }
    }

    /** `isSidebarMounted()`. */
    function IsSidebarMounted(): (r: bool)
      reads this
      ensures r == isMounted
    {
      isMounted
    }
  }

  /** The page work of a mount: both style sets injected, then the container
      reused or appended to the body. */
  method PreparePage(d: Document)
    modifies d
    ensures d.Has(SidebarRootId) && d.Has(SidebarStylesId) && d.Has(AppStylesId)
    ensures d.Count(SidebarRootId) == if old(d.Has(SidebarRootId)) then old(d.Count(SidebarRootId)) else 1
    ensures d.Count(SidebarStylesId) == if old(d.Has(SidebarStylesId)) then old(d.Count(SidebarStylesId)) else 1
    ensures d.Count(AppStylesId) == if old(d.Has(AppStylesId)) then old(d.Count(AppStylesId)) else 1
    ensures forall id :: Foreign(id) ==> d.Count(id) == old(d.Count(id))
  {
    IdsDistinct();
    CountHas(d, SidebarRootId);
    ghost var rootCount := d.Count(SidebarRootId);
    var _ := InjectSidebarStyles(d);
    assert d.Count(SidebarRootId) == rootCount;
    ghost var sidebarCount := d.Count(SidebarStylesId);
    var _ := InjectAppStyles(d);
    assert d.Count(SidebarRootId) == rootCount && d.Count(SidebarStylesId) == sidebarCount;
    ghost var appCount := d.Count(AppStylesId);
    CountHas(d, SidebarRootId);
    if !d.Has(SidebarRootId) {
      d.AppendToBody(SidebarRootId);
      assert d.Count(SidebarStylesId) == sidebarCount && d.Count(AppStylesId) == appCount;
    }
    CountHas(d, SidebarRootId);
    CountHas(d, SidebarStylesId);
    CountHas(d, AppStylesId);
  }

  lemma IdsDistinct()
    ensures SidebarRootId != SidebarStylesId && SidebarRootId != AppStylesId && SidebarStylesId != AppStylesId
  {
    assert |SidebarRootId| == 18 && |SidebarStylesId| == 20 && |AppStylesId| == 16;
  }
}
