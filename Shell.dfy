/** The sidebar shell: the collapsed flag, kept in `chrome.storage.local` under
    one key, and what the shell renders for it. */
module Shell {
  import opened Wrappers

  const CollapsedKey := "gogio_sidebar_collapsed"
  const FallbackAvatar := "/gio-avatar.png"

  /** `chrome.storage.local` as far as the shell uses it: whether the area
      exists, and the flag stored under `CollapsedKey` (None: missing). */
  class CollapsedSlot {
    const available: bool
    var stored: Option<bool>

    constructor (available0: bool, stored0: Option<bool>)
      ensures available == available0 && stored == stored0
    {
      available := available0;
      stored := stored0;
    }

    /** `getSidebarCollapsed()`: false without storage or without the key. */
    function Read(): (r: bool)
      reads this
      ensures !available || stored.None? ==> !r
      ensures available && stored.Some? ==> r == stored.value
    {
      available && stored.GetOr(false)
    }

    /** `setSidebarCollapsed(collapsed)`: nothing without storage. */
    method Write(collapsed: bool)
      modifies this
      ensures available ==> stored == Some(collapsed)
      ensures !available ==> stored == old(stored)
    {
      if available {
        stored := Some(collapsed);
      }
    }
  }

  /** `getAvatarUrl()`, given what `chrome.runtime.getURL('gio-avatar.png')`
      returns when that function exists (None: it does not). */
  function AvatarUrl(packagedUrl: Option<string>): (r: string)
    ensures packagedUrl.Some? ==> r == packagedUrl.value
    ensures packagedUrl.None? ==> r == FallbackAvatar
  {
    packagedUrl.GetOr(FallbackAvatar)
  }

  datatype Rendered = Nothing | FloatingButton(avatarUrl: string) | FullSidebar

  class ShellState {
    var collapsed: bool
    var isLoaded: bool
    const slot: CollapsedSlot

    constructor (slot0: CollapsedSlot)
      ensures slot == slot0 && !collapsed && !isLoaded
    {
      slot := slot0;
      collapsed := false;
      isLoaded := false;
    }

    /** In-memory and stored flag agree wherever storage exists. */
    predicate InSync()
      reads this, slot
    {
      slot.available ==> slot.Read() == collapsed
    }

    /** The mount effect: read the stored flag, then mark the shell loaded. */
    method Load()
      modifies this
      ensures collapsed == slot.Read() && isLoaded
      ensures InSync()
    {
      collapsed := slot.Read();
      isLoaded := true;
    }

    /** `handleCollapse()`. */
    method HandleCollapse()
      modifies this, slot
      ensures collapsed && isLoaded == old(isLoaded)
      ensures slot.available ==> slot.stored == Some(true)
      ensures !slot.available ==> slot.stored == old(slot.stored)
      ensures InSync()
    {
      collapsed := true;
      slot.Write(true);
    }

    /** `handleExpand()`. */
    method HandleExpand()
      modifies this, slot
      ensures !collapsed && isLoaded == old(isLoaded)
      ensures slot.available ==> slot.stored == Some(false)
      ensures !slot.available ==> slot.stored == old(slot.stored)
      ensures InSync()
    {
      collapsed := false;
      slot.Write(false);
    }

    /** Nothing before the flag has loaded; then the floating button when
        collapsed and the full sidebar otherwise. */
    function Render(packagedUrl: Option<string>): (r: Rendered)
      reads this
      ensures !isLoaded ==> r == Nothing
      ensures isLoaded && collapsed ==> r == FloatingButton(AvatarUrl(packagedUrl))
      ensures isLoaded && !collapsed ==> r == FullSidebar
    {
      if !isLoaded then Nothing else if collapsed then FloatingButton(AvatarUrl(packagedUrl)) else FullSidebar
    }
  }
}
