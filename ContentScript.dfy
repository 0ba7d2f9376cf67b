/** The main LinkedIn content script's message listener: profile requests are
    answered with the shared extractor's record, sidebar requests drive the mount
    controller and report its state. */
module ContentScript {
  import opened Wrappers
  import opened Dom
  import opened ProfileExtractor
  import opened SidebarMount

  /** What the listener passes to `sendResponse`. */
  datatype Reply =
    | ProfileReply(data: ProfileData)
    | NullReply
    | SidebarReply(ok: bool, mounted: bool)

  /** The `onMessage` listener. `msgType` is `msg?.type`; `page` is the page as the
      extractor reads it and `extractionThrows` whether extraction threw. Returns
      the reply sent (None: none sent) and the listener's return value. */
  method OnMessage(c: Controller, msgType: Option<string>, page: Element, href: string, extractionThrows: bool)
    returns (reply: Option<Reply>, keepOpen: bool)
    modifies c, c.doc
    ensures keepOpen
    ensures old(c.Valid()) ==> c.Valid()
    ensures msgType == Some("GET_LINKEDIN_PROFILE_DATA") ==>
              c.isMounted == old(c.isMounted) && c.hasRoot == old(c.hasRoot)
              && c.doc.head == old(c.doc.head) && c.doc.body == old(c.doc.body)
              && (extractionThrows ==> reply == Some(NullReply))
              && (!extractionThrows ==> reply == Some(ProfileReply(ProfileOf(page, href))))
    ensures msgType == Some("TOGGLE_SIDEBAR") ==>
              c.isMounted == !old(c.isMounted) && reply == Some(SidebarReply(true, c.isMounted))
    ensures msgType == Some("MOUNT_SIDEBAR") ==>
              c.isMounted && reply == Some(SidebarReply(true, true))
    ensures forall id :: Foreign(id) ==> c.doc.Count(id) == old(c.doc.Count(id))
    ensures msgType !in {Some("GET_LINKEDIN_PROFILE_DATA"), Some("TOGGLE_SIDEBAR"), Some("MOUNT_SIDEBAR")} ==>
              reply.None? && c.isMounted == old(c.isMounted) && c.hasRoot == old(c.hasRoot)
              && c.doc.head == old(c.doc.head) && c.doc.body == old(c.doc.body)
  {
    reply := None;
    keepOpen := true;
    if msgType == Some("GET_LINKEDIN_PROFILE_DATA") {
      if extractionThrows {
        reply := Some(NullReply);
      } else {
        var data := ExtractProfileData(page, href);
        reply := Some(ProfileReply(data));
      }
      return;
    }
    if msgType == Some("TOGGLE_SIDEBAR") {
      c.Toggle();
      reply := Some(SidebarReply(true, c.IsSidebarMounted()));
      return;
    }
    if msgType == Some("MOUNT_SIDEBAR") {
      c.Mount();
      reply := Some(SidebarReply(true, true));
      return;
    }
  }
}
