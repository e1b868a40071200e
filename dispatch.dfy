/** Event routing (the handler `listen` gives the event consumer in
    resize.js): each change event goes to at most one of the resize pass,
    the deletion cascade and reference discovery. A `TypeError` thrown
    while routing (reading a property of a missing `current` or
    `previous`) is caught by the handler's `try`, so such an event is
    routed nowhere. */
module Dispatch {
  import opened Wrappers
  import opened JsValues

  /** A change event: `object` (whether the change is to an object rather
      than an edge), `verb` (the event's `method`: `"POST"`, `"PUT"`, `"DELETE"`, …), and the
      entity after and before the change. */
  datatype Event = Event(
    isObject: bool,
    verb: string,
    current: Option<Entity>,
    previous: Option<Entity>)

  datatype Route =
    | ResizeFile(file: Entity)
    | DeleteFiles(doc: Entity)
    | CheckReference(current: Entity)
    | Ignore

  /** `event.current ? event.current.object_type : event.previous.object_type`;
      `None` when both are missing and the read throws. */
  function ObjectType(e: Event): Option<Option<Json>>
  {
    if e.current.Some? then Some(Get(e.current.value, "object_type"))
    else if e.previous.Some? then Some(Get(e.previous.value, "object_type"))
    else None
  }

  /** `event.object && object_type === "file"`. */
  predicate IsFileObjectEvent(e: Event)
  {
    e.isObject && ObjectType(e) == Some(Some(JStr("file")))
  }

  /** `file.uploaded === true && "resizes" in file`. */
  predicate ReadyToResize(file: Entity)
  {
    Get(file, "uploaded") == Some(JBool(true)) && Has(file, "resizes")
  }

  function RouteEvent(e: Event): (r: Route)
    ensures r.ResizeFile? <==>
      IsFileObjectEvent(e) && e.verb == "PUT" && e.current.Some? && ReadyToResize(e.current.value)
    ensures r.ResizeFile? ==> Some(r.file) == e.current
    ensures r.DeleteFiles? <==> IsFileObjectEvent(e) && e.verb == "DELETE" && e.previous.Some?
    ensures r.DeleteFiles? ==> Some(r.doc) == e.previous
    ensures r.CheckReference? <==>
      ObjectType(e).Some? && !IsFileObjectEvent(e) && (e.verb == "POST" || e.verb == "PUT") &&
      e.current.Some?
    ensures r.CheckReference? ==> Some(r.current) == e.current
  {
    if ObjectType(e).None? then Ignore
    else if IsFileObjectEvent(e) then
      if e.verb == "PUT" then
        // file.uploaded throws when the event has no current entity
        if e.current.Some? && ReadyToResize(e.current.value) then ResizeFile(e.current.value)
        else Ignore
      else if e.verb == "DELETE" then
        // deleteFiles(undefined) throws at doc.url
        if e.previous.Some? then DeleteFiles(e.previous.value) else Ignore
      else Ignore
    else if e.verb == "POST" || e.verb == "PUT" then
      // checkFileReference throws at event.current.edge when current is missing
      if e.current.Some? then CheckReference(e.current.value) else Ignore
    else Ignore
  }

  /** A file created through the object API (`POST` on a `"file"`) is
      handled by nobody: neither resized nor scanned for references. */
  lemma FileCreationIgnored(e: Event)
    requires IsFileObjectEvent(e) && e.verb == "POST"
    ensures RouteEvent(e) == Ignore
  {
  }

  /** Events other than creations and updates of non-file objects, updates
      of uploaded files and deletions of files are ignored. */
  lemma OtherEventsIgnored(e: Event)
    requires e.verb != "POST" && e.verb != "PUT"
    requires !(IsFileObjectEvent(e) && e.verb == "DELETE")
    ensures RouteEvent(e) == Ignore
  {
  }

  /** A non-object (edge) event on a `"file"` is a reference check, never a
      resize or a deletion. */
  lemma EdgeEventOnFileChecksReference(e: Event)
    requires !e.isObject && e.current.Some? && (e.verb == "POST" || e.verb == "PUT")
    ensures RouteEvent(e) == CheckReference(e.current.value)
  {
  }
}
