/**
 * The window manager of the render server (Window/Manager.cpp): a registry from the
 * application's string window names to the numeric identifiers the platform back-end
 * hands out, and the decoding of a `<Window>` configuration element into a creation
 * request.
 *
 * The back-end (`sMB_RNDR_WIN_create`, `_query`, `_update`, `_close`) is code this model does
 * not see from here: each call is a function parameter giving the descriptor the back-end
 * returns. A failing back-end answers with a descriptor whose flags are Invalid.
 */
module WindowManager {
  import opened Wrappers
  import opened MapInsert
  import opened WindowDescriptor
  import opened Config

  /** The four exception classes of Window/Exceptions.hpp, each carrying its message. */
  datatype Error =
    | InvalidID(message: string)
    | CreationFailure(message: string)
    | QueryFailure(message: string)
    | ParsingFailure(message: string)

  const NoWindowMessage := "No window with specified id."
  const DuplicateMessage := "A window with this identifier already exists."
  const CreationMessage := "Back-End failure on window creation."
  const QueryUnknownMessage := "Tried to query a non-existent window."
  const QueryBackendMessage := "Back-End failure on window query."
  const UpdateUnknownMessage := "Tried to update a non-existent window."
  const UpdateBackendMessage := "Back-End failure on window update."
  const CloseUnknownMessage := "Tried to close a non-existent window."
  const NoRectMessage := "Window had no <Rect> element."
  const NoIdentifierMessage := "Window had no identifier."

  /** The window-name map: `_windowIdMap`. */
  type WindowMap = map<string, u32>

  /** `getWindowIdentifier`: the mapped identifier, or `InvalidIDException` for an unknown name. */
  function Lookup(m: WindowMap, id: string): (r: Result<u32, Error>)
    ensures r.Ok? <==> id in m
    ensures r.Ok? ==> r.value == m[id]
    ensures r.Err? ==> r.error == InvalidID(NoWindowMessage)
  {
    if id in m then Ok(m[id]) else Err(InvalidID(NoWindowMessage))
  }

  /**
   * Whether `createWindow` takes `id` as already assigned. The lookup's exception is swallowed
   * and only a non-zero identifier counts, so a name mapped to 0 is not a duplicate.
   */
  predicate Assigned(m: WindowMap, id: string)
  {
    Lookup(m, id).Ok? && Lookup(m, id).value != 0
  }

  /**
   * `createWindow`, given the descriptor `info` the back-end returns: the outcome and the map
   * afterwards. A duplicate is rejected before the back-end is reached; a back-end failure
   * leaves the map alone; a success inserts with `map::insert`, which never overwrites.
   */
  function Create(m: WindowMap, id: string, info: Descriptor): (r: (Result<Descriptor, Error>, WindowMap))
    ensures r.0.Err? ==> r.1 == m
    ensures r.0 == Err(InvalidID(DuplicateMessage)) <==> id in m && m[id] != 0
    ensures r.0 == Err(CreationFailure(CreationMessage)) <==> !(id in m && m[id] != 0) && info.flags == Invalid
    ensures r.0.Ok? ==> r.0.value == info && info.flags != Invalid
    ensures r.0.Ok? && id !in m ==> r.1 == m[id := info.identifier]
    ensures r.0.Ok? && id in m ==> r.1 == m && m[id] == 0
    ensures forall k :: k in m ==> k in r.1 && r.1[k] == m[k]
  {
    if Assigned(m, id) then (Err(InvalidID(DuplicateMessage)), m)
    else if info.flags != Invalid then (Ok(info), Inserted(m, id, info.identifier))
    else (Err(CreationFailure(CreationMessage)), m)
  }

  /**
   * The shape shared by `queryWindow` and `updateWindow`: an unknown name throws the lookup's
   * `InvalidIDException`, a name mapped to 0 throws `unknown`, and an Invalid back-end answer
   * throws `QueryException` with `backend`.
   */
  function Checked(m: WindowMap, id: string, info: Descriptor, unknown: string, backend: string): (r: Result<Descriptor, Error>)
    ensures id !in m ==> r == Err(InvalidID(NoWindowMessage))
    ensures id in m && m[id] == 0 ==> r == Err(InvalidID(unknown))
    ensures r == Err(QueryFailure(backend)) <==> id in m && m[id] != 0 && info.flags == Invalid
    ensures r.Ok? <==> id in m && m[id] != 0 && info.flags != Invalid
    ensures r.Ok? ==> r.value == info
  {
    match Lookup(m, id)
    case Err(e) => Err(e)
    case Ok(w) =>
      if w == 0 then Err(InvalidID(unknown))
      else if info.flags != Invalid then Ok(info)
      else Err(QueryFailure(backend))
  }

  /** `closeWindow`: the outcome and the map afterwards; only a known, non-zero name is erased. */
  function Close(m: WindowMap, id: string): (r: (Result<(), Error>, WindowMap))
    ensures r.0.Ok? <==> id in m && m[id] != 0
    ensures r.0.Ok? ==> r.1 == m - {id} && Lookup(r.1, id).Err?
    ensures r.0.Err? ==> r.1 == m
    ensures id !in m ==> r.0 == Err(InvalidID(NoWindowMessage))
    ensures id in m && m[id] == 0 ==> r.0 == Err(InvalidID(CloseUnknownMessage))
    ensures forall k :: k in m && k != id ==> k in r.1 && r.1[k] == m[k]
  {
    match Lookup(m, id)
    case Err(e) => (Err(e), m)
    case Ok(w) => if w == 0 then (Err(InvalidID(CloseUnknownMessage)), m) else (Ok(()), m - {id})
  }

  /** The flags `parseConfig` requests: the parsed names, or Default when none was recognised. */
  function RequestedFlags(names: seq<string>): (f: bv32)
    ensures f != Invalid
    ensures MaskOf(names) == Invalid ==> f == Default
    ensures MaskOf(names) != Invalid ==> f == MaskOf(names)
  {
    ParseFlagsMask(Invalid, names);
    var parsed := ParseFlags(Invalid, names);
    if parsed == Invalid then Default else parsed
  }

  /** The flag names of the first `<Flags>` child of a window element; none without one. */
  function FlagNamesOf(node: ConfigNode): (names: seq<string>)
    reads node, node.children
    ensures FirstNamed(node.children, "Flags").None? ==> names == []
    ensures FirstNamed(node.children, "Flags").Some? ==> names == FirstNamed(node.children, "Flags").value.flags
  {
    match FirstNamed(node.children, "Flags")
    case None => []
    case Some(list) => list.flags
  }

  /**
   * The descriptor `parseConfig` passes to `createWindow` for a window element with `<Rect>`
   * child `rect`. `parsedFrame` holds what the float parser writes for each frame
   * attribute, and `screenConverted` is the unsigned parser's success result, which the
   * getter stores as the screen.
   */
  function Requested(node: ConfigNode, rect: ConfigNode, parsedFrame: Rect2f, screenConverted: bool): (d: Descriptor)
    reads node, node.children, rect
    ensures d.identifier == 0
    ensures d.flags == RequestedFlags(FlagNamesOf(node)) && d.flags != Invalid
    ensures d.title == Some(if node.HasAttribute("name") then node.attributes["name"] else "")
    ensures d.screen == (if node.HasAttribute("screen") then (if screenConverted then 1 else 0) else 0)
    ensures d.screen <= 1
    ensures d.frame.x == (if rect.HasAttribute("x") then parsedFrame.x else 0.0)
    ensures d.frame.y == (if rect.HasAttribute("y") then parsedFrame.y else 0.0)
    ensures d.frame.w == (if rect.HasAttribute("w") then parsedFrame.w else 0.0)
    ensures d.frame.h == (if rect.HasAttribute("h") then parsedFrame.h else 0.0)
  {
    var frame := Rect2f(rect.GetFloatInto("x", parsedFrame.x, 0.0), rect.GetFloatInto("y", parsedFrame.y, 0.0),
                        rect.GetFloatInto("w", parsedFrame.w, 0.0), rect.GetFloatInto("h", parsedFrame.h, 0.0));
    Descriptor(0, frame, RequestedFlags(FlagNamesOf(node)), node.GetUnsignedInto("screen", screenConverted, 0),
               Some(node.GetAttributeInto("name", "")))
  }

  /**
   * The flag loop of `parseConfig`: `parseFlag` of each name of the flag list in order, then
   * the Default flags when none was recognised.
   */
  method ParseFlagList(names: seq<string>) returns (flags: bv32)
    ensures flags == RequestedFlags(names)
  {
    flags := Invalid;
    var i := 0;
    while i < |names|
      invariant 0 <= i <= |names|
      invariant flags == ParseFlags(Invalid, names[..i])
    {
      ParseFlagsPrefix(Invalid, names, i);
      flags := ParseFlag(flags, names[i]);
      i := i + 1;
    }
    assert names[..|names|] == names;
    if flags == Invalid {
      flags := Default;
    }
  }
  /**
   * What `parseConfig` reads from a window element before it calls `createWindow`: the
   * identifier attribute is checked first, then the `<Rect>` child; with both it yields the
   * identifier and the requested descriptor.
   */
  function Decode(node: ConfigNode, parsedFrame: Rect2f, screenConverted: bool): (p: Result<(string, Descriptor), Error>)
    reads node, node.children
    ensures !node.HasAttribute("identifier") <==> p == Err(ParsingFailure(NoIdentifierMessage))
    ensures node.HasAttribute("identifier") && FirstNamed(node.children, "Rect").None? ==>
              p == Err(ParsingFailure(NoRectMessage))
    ensures p.Ok? <==> node.HasAttribute("identifier") && FirstNamed(node.children, "Rect").Some?
    ensures p.Ok? ==> p.value.0 == node.attributes["identifier"]
                      && p.value.1 == Requested(node, FirstNamed(node.children, "Rect").value, parsedFrame, screenConverted)
  {
    if !node.HasAttribute("identifier") then Err(ParsingFailure(NoIdentifierMessage))
    else match FirstNamed(node.children, "Rect")
      case None => Err(ParsingFailure(NoRectMessage))
      case Some(rect) => Ok((node.GetAttribute("identifier"), Requested(node, rect, parsedFrame, screenConverted)))
  }

  /**
   * The descriptor-building part of `parseConfig` once the `<Rect>` child is found: the frame
   * components, the flag list, the name and the screen, each read in turn.
   */
  method ParseDescriptor(node: ConfigNode, rect: ConfigNode, parsedFrame: Rect2f, screenConverted: bool)
    returns (d: Descriptor)
    ensures d == Requested(node, rect, parsedFrame, screenConverted)
  {
    var frame := Rect2f(rect.GetFloatInto("x", parsedFrame.x, 0.0), rect.GetFloatInto("y", parsedFrame.y, 0.0),
                        rect.GetFloatInto("w", parsedFrame.w, 0.0), rect.GetFloatInto("h", parsedFrame.h, 0.0));
    var windowFlagList := FirstNamed(node.children, "Flags");
    var names := if windowFlagList.Some? then windowFlagList.value.flags else [];
    assert names == FlagNamesOf(node);
    var flags := ParseFlagList(names);
    var windowName := node.GetAttributeInto("name", "");
    var screen := node.GetUnsignedInto("screen", screenConverted, 0);
    d := Descriptor(0, frame, flags, screen, Some(windowName));
  }


  /** The window manager singleton. */
  class Manager {
    /** `_windowIdMap`. */
    var windowIdMap: WindowMap

    /** `Manager()`: no windows. */
    constructor ()
      ensures windowIdMap == map[]
    {
      windowIdMap := map[];
    }

    /** `getWindowIdentifier`. */
    function GetWindowIdentifier(id: string): (r: Result<u32, Error>)
      reads this
      ensures r.Ok? <==> id in windowIdMap
      ensures r == Lookup(windowIdMap, id)
    {
      Lookup(windowIdMap, id)
    }

    /** `createWindow`, given the back-end's creation call. */
    method CreateWindow(id: string, descriptor: Descriptor, backend: Descriptor -> Descriptor) returns (r: Result<Descriptor, Error>)
      modifies this
      ensures (r, windowIdMap) == Create(old(windowIdMap), id, backend(descriptor))
    {
      var windowId: u32 := 0;
      var found := GetWindowIdentifier(id);
      if found.Ok? {
        windowId := found.value;
      }
      if windowId != 0 {
        return Err(InvalidID(DuplicateMessage));
      }
      var info := backend(descriptor);
      if info.flags != Invalid {
        windowIdMap := Inserted(windowIdMap, id, info.identifier);
        r := Ok(info);
      } else {
        r := Err(CreationFailure(CreationMessage));
      }
    }

    /** `queryWindow`, given the back-end's query call. */
    function QueryWindow(id: string, backend: u32 -> Descriptor): (r: Result<Descriptor, Error>)
      reads this
      ensures r == Checked(windowIdMap, id, if id in windowIdMap then backend(windowIdMap[id]) else DefaultDescriptor(),
                           QueryUnknownMessage, QueryBackendMessage)
    {
      match GetWindowIdentifier(id)
      case Err(e) => Err(e)
      case Ok(w) =>
        if w != 0 then
          var info := backend(w);
          if info.flags != Invalid then Ok(info) else Err(QueryFailure(QueryBackendMessage))
        else Err(InvalidID(QueryUnknownMessage))
    }

    /** `updateWindow`, given the back-end's update call. */
    function UpdateWindow(id: string, descriptor: Descriptor, backend: (u32, Descriptor) -> Descriptor): (r: Result<Descriptor, Error>)
      reads this
      ensures r == Checked(windowIdMap, id, if id in windowIdMap then backend(windowIdMap[id], descriptor) else DefaultDescriptor(),
                           UpdateUnknownMessage, UpdateBackendMessage)
    {
      match GetWindowIdentifier(id)
      case Err(e) => Err(e)
      case Ok(w) =>
        if w != 0 then
          var info := backend(w, descriptor);
          if info.flags != Invalid then Ok(info) else Err(QueryFailure(UpdateBackendMessage))
        else Err(InvalidID(UpdateUnknownMessage))
    }

    /**
     * `closeWindow`. The back-end's close call returns nothing to the manager, so it is not a
     * parameter; the identifier it is given is `old(windowIdMap)[id]` on success.
     */
    method CloseWindow(id: string) returns (r: Result<(), Error>)
      modifies this
      ensures (r, windowIdMap) == Close(old(windowIdMap), id)
    {
      var found := GetWindowIdentifier(id);
      if found.Err? {
        return Err(found.error);
      }
      if found.value != 0 {
        windowIdMap := windowIdMap - {id};
        r := Ok(());
      } else {
        r := Err(InvalidID(CloseUnknownMessage));
      }
    }

    /**
     * `parseConfig`: a window element needs an "identifier" attribute, then a `<Rect>` child,
     * checked in that order; otherwise the request built from it goes to `createWindow`.
     */
    method ParseConfig(node: ConfigNode, parsedFrame: Rect2f, screenConverted: bool, backend: Descriptor -> Descriptor)
      returns (r: Result<Descriptor, Error>)
      modifies this
      ensures old(Decode(node, parsedFrame, screenConverted)).Err? ==>
                r == Err(old(Decode(node, parsedFrame, screenConverted)).error) && windowIdMap == old(windowIdMap)
      ensures old(Decode(node, parsedFrame, screenConverted)).Ok? ==>
                var (identifier, request) := old(Decode(node, parsedFrame, screenConverted)).value;
                (r, windowIdMap) == Create(old(windowIdMap), identifier, backend(request))
    {
      if !node.HasAttribute("identifier") {
        return Err(ParsingFailure(NoIdentifierMessage));
      }
      var identifier := node.GetAttribute("identifier");
      var windowRect := FirstNamed(node.children, "Rect");
      if windowRect.None? {
        return Err(ParsingFailure(NoRectMessage));
      }
      var parsedDescriptor := ParseDescriptor(node, windowRect.value, parsedFrame, screenConverted);
      r := CreateWindow(identifier, parsedDescriptor, backend);
    }
  }

  /** After a successful creation of a new name, looking it up gives the back-end's identifier. */
  lemma CreateThenLookup(m: WindowMap, id: string, info: Descriptor)
    requires id !in m && info.flags != Invalid
    ensures Create(m, id, info).0 == Ok(info)
    ensures Lookup(Create(m, id, info).1, id) == Ok(info.identifier)
  {
  }

  /** A second creation under a name the first one mapped to a non-zero identifier is rejected. */
  lemma CreateTwiceRejected(m: WindowMap, id: string, first: Descriptor, second: Descriptor)
    requires id !in m && first.flags != Invalid && first.identifier != 0
    ensures Create(Create(m, id, first).1, id, second) == (Err(InvalidID(DuplicateMessage)), Create(m, id, first).1)
  {
  }

  /** Closing a created window forgets its name and restores the map from before the creation. */
  lemma CreateThenClose(m: WindowMap, id: string, info: Descriptor)
    requires id !in m && info.flags != Invalid && info.identifier != 0
    ensures Close(Create(m, id, info).1, id) == (Ok(()), m)
  {
    assert Create(m, id, info).1 - {id} == m;
  }
}
