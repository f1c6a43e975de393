/**
 * The pipeline manager of the render server (Pipeline/Manager.cpp): it keeps no state of its
 * own, resolves window names through the window manager, translates the window manager's
 * `InvalidIDException` into its own, and decodes a `<Pipeline>` configuration element.
 *
 * The back-end calls (`sMB_RNDR_PIP_create`, `_query`, `_update`) are function parameters
 * giving the descriptor they return; `sMB_RNDR_PIP_close` returns nothing and is not one.
 */
module PipelineManager {
  import opened Wrappers
  import BufferDescriptor
  import WindowManager
  import opened Config

  /** `cMB_RNDR_PIP_BackfaceCulling`. */
  const BackfaceCulling: u32 := 1
  /** `cMB_RNDR_PIP_FrontfaceCulling`. */
  const FrontfaceCulling: u32 := 2

  /** An RGBA clear colour; its components are only carried, never computed on. */
  datatype Color = Color(r: real, g: real, b: real, a: real)

  /** `cMB_RNDR_PIP_Descriptor`; `None` stands for a null shader name. */
  datatype Descriptor = Descriptor(window: u32, fragment: Option<string>, vertex: Option<string>,
                                   clearColor: Color, bufferManager: u32, culling: u32)

  /**
   * `Descriptor()`: no window, no shaders, opaque black, the invalid buffer constant as the
   * manager, front-face culling.
   */
  function DefaultDescriptor(): (d: Descriptor)
    ensures d.window == 0 && d.fragment == None && d.vertex == None
    ensures d.clearColor == Color(0.0, 0.0, 0.0, 1.0)
    ensures d.bufferManager == BufferDescriptor.InvalidManager && d.culling == FrontfaceCulling
  {
    Descriptor(0, None, None, Color(0.0, 0.0, 0.0, 1.0), BufferDescriptor.InvalidType, FrontfaceCulling)
  }

  /** The exception classes of the pipeline manager, each carrying its message. */
  datatype Error = InvalidID(message: string) | ParsingFailure(message: string)

  const CreateUnknownMessage := "Tried to create pipeline for non-existent window"
  const OtherUnknownMessage := "Tried to query pipeline for non-existent window"
  const NoWindowMessage := "No window specified in the <Pipeline> element."
  const NoVertexMessage := "Pipeline had no <Vertex> element."
  const NoFragmentMessage := "Pipeline had no <Fragment> element."

  /**
   * `createPipeline`: the window's numeric identifier is written into the descriptor before the
   * back-end sees it; an unknown window becomes a pipeline `InvalidIDException`. Unlike the
   * window manager's own calls, a window mapped to 0 is passed through.
   */
  function CreatePipeline(windows: WindowManager.WindowMap, window: string, descriptor: Descriptor,
                          backend: Descriptor -> Descriptor): (r: Result<Descriptor, Error>)
    ensures r.Err? <==> window !in windows
    ensures r.Err? ==> r.error == InvalidID(CreateUnknownMessage)
    ensures r.Ok? ==> r.value == backend(descriptor.(window := windows[window]))
  {
    match WindowManager.Lookup(windows, window)
    case Err(_) => Err(InvalidID(CreateUnknownMessage))
    case Ok(w) => Ok(backend(descriptor.(window := w)))
  }

  /** `queryPipeline`: the back-end's answer for the window's identifier. */
  function QueryPipeline(windows: WindowManager.WindowMap, window: string, backend: u32 -> Descriptor): (r: Result<Descriptor, Error>)
    ensures r.Err? <==> window !in windows
    ensures r.Err? ==> r.error == InvalidID(OtherUnknownMessage)
    ensures r.Ok? ==> r.value == backend(windows[window])
  {
    match WindowManager.Lookup(windows, window)
    case Err(_) => Err(InvalidID(OtherUnknownMessage))
    case Ok(w) => Ok(backend(w))
  }

  /** `updatePipeline`: the back-end's answer to the update of the window's pipeline. */
  function UpdatePipeline(windows: WindowManager.WindowMap, window: string, descriptor: Descriptor,
                          backend: (u32, Descriptor) -> Descriptor): (r: Result<Descriptor, Error>)
    ensures r.Err? <==> window !in windows
    ensures r.Err? ==> r.error == InvalidID(OtherUnknownMessage)
    ensures r.Ok? ==> r.value == backend(windows[window], descriptor)
  {
    match WindowManager.Lookup(windows, window)
    case Err(_) => Err(InvalidID(OtherUnknownMessage))
    case Ok(w) => Ok(backend(w, descriptor))
  }

  /** `closePipeline`: the identifier handed to the back-end's close call, or the translated exception. */
  function ClosePipeline(windows: WindowManager.WindowMap, window: string): (r: Result<u32, Error>)
    ensures r.Err? <==> window !in windows
    ensures r.Err? ==> r.error == InvalidID(OtherUnknownMessage)
    ensures r.Ok? ==> r.value == windows[window]
  {
    match WindowManager.Lookup(windows, window)
    case Err(_) => Err(InvalidID(OtherUnknownMessage))
    case Ok(w) => Ok(w)
  }

  /** The clear colour: the default unless a `<ClearColor>` child exists, then its attributes. */
  function ClearColorOf(root: ConfigNode, parsed: Color): (c: Color)
    reads root, root.children
    ensures FirstNamed(root.children, "ClearColor").None? ==> c == DefaultDescriptor().clearColor
    ensures FirstNamed(root.children, "ClearColor").Some? ==>
              var n := FirstNamed(root.children, "ClearColor").value;
              && c.r == (if n.HasAttribute("r") then parsed.r else 0.0)
              && c.g == (if n.HasAttribute("g") then parsed.g else 0.0)
              && c.b == (if n.HasAttribute("b") then parsed.b else 0.0)
              && c.a == (if n.HasAttribute("a") then parsed.a else 1.0)
  {
    match FirstNamed(root.children, "ClearColor")
    case None => DefaultDescriptor().clearColor
    case Some(n) =>
      Color(n.GetFloatInto("r", parsed.r, 0.0), n.GetFloatInto("g", parsed.g, 0.0),
            n.GetFloatInto("b", parsed.b, 0.0), n.GetFloatInto("a", parsed.a, 1.0))
  }

  /** The `culling` attribute selects back-face culling exactly when it is "back". */
  function CullingOf(root: ConfigNode): (c: u32)
    reads root
    ensures c == BackfaceCulling <==> root.HasAttribute("culling") && root.attributes["culling"] == "back"
    ensures c == BackfaceCulling || c == FrontfaceCulling
  {
    if root.GetAttributeInto("culling", "front") == "back" then BackfaceCulling else FrontfaceCulling
  }

  /** A non-empty `shared` attribute selects the shared buffer manager; otherwise the default stays. */
  function BufferManagerOf(root: ConfigNode): (m: u32)
    reads root
    ensures m == BufferDescriptor.SharedManager <==> root.HasAttribute("shared") && root.attributes["shared"] != ""
    ensures m != BufferDescriptor.SharedManager ==> m == DefaultDescriptor().bufferManager
  {
    if root.GetAttributeInto("shared", "") != "" then BufferDescriptor.SharedManager else DefaultDescriptor().bufferManager
  }

  /**
   * The decoding of a `<Pipeline>` element: the window name and the descriptor to create, or the
   * exception. The checks run in order: window, `<Vertex>`, `<Fragment>`.
   */
  function Decode(root: ConfigNode, parsedColor: Color): (r: Result<(string, Descriptor), Error>)
    reads root, root.children
    ensures r == Err(InvalidID(NoWindowMessage)) <==> !root.HasAttribute("window") || root.attributes["window"] == ""
    ensures r == Err(ParsingFailure(NoVertexMessage)) <==>
              root.HasAttribute("window") && root.attributes["window"] != "" && FirstNamed(root.children, "Vertex").None?
    ensures r == Err(ParsingFailure(NoFragmentMessage)) <==>
              root.HasAttribute("window") && root.attributes["window"] != ""
              && FirstNamed(root.children, "Vertex").Some? && FirstNamed(root.children, "Fragment").None?
    ensures r.Ok? ==> r.value.0 == root.attributes["window"] && r.value.1.window == 0
    ensures r.Ok? ==> r.value.1.vertex == Some(FirstNamed(root.children, "Vertex").value.text)
    ensures r.Ok? ==> r.value.1.fragment == Some(FirstNamed(root.children, "Fragment").value.text)
    ensures r.Ok? ==> r.value.1.culling == CullingOf(root) && r.value.1.bufferManager == BufferManagerOf(root)
    ensures r.Ok? ==> r.value.1.clearColor == ClearColorOf(root, parsedColor)
  {
    var window := root.GetAttributeInto("window", "");
    if window == "" then Err(InvalidID(NoWindowMessage))
    else match FirstNamed(root.children, "Vertex")
      case None => Err(ParsingFailure(NoVertexMessage))
      case Some(vertexNode) =>
        match FirstNamed(root.children, "Fragment")
        case None => Err(ParsingFailure(NoFragmentMessage))
        case Some(fragmentNode) =>
          Ok((window, Descriptor(0, Some(fragmentNode.text), Some(vertexNode.text), ClearColorOf(root, parsedColor),
                                 BufferManagerOf(root), CullingOf(root))))
  }

  /**
   * `parseConfig`: fills a default descriptor field by field from the element, then creates
   * the pipeline for the named window. `parsedColor` is what the float getters store for the
   * attributes of a `<ClearColor>` child that are present.
   */
  method ParseConfig(windows: WindowManager.Manager, root: ConfigNode, parsedColor: Color, backend: Descriptor -> Descriptor)
    returns (r: Result<Descriptor, Error>)
    ensures Decode(root, parsedColor).Err? ==> r == Err(Decode(root, parsedColor).error)
    ensures Decode(root, parsedColor).Ok? ==>
              r == CreatePipeline(windows.windowIdMap, Decode(root, parsedColor).value.0, Decode(root, parsedColor).value.1, backend)
  {
    var result := DefaultDescriptor();
    var windowStrIdentifier := root.GetAttributeInto("window", "");
    if windowStrIdentifier == "" {
      return Err(InvalidID(NoWindowMessage));
    }
    var vertexNode := FirstNamed(root.children, "Vertex");
    if vertexNode.None? {
      return Err(ParsingFailure(NoVertexMessage));
    }
    result := result.(vertex := Some(vertexNode.value.GetText()));
    var fragmentNode := FirstNamed(root.children, "Fragment");
    if fragmentNode.None? {
      return Err(ParsingFailure(NoFragmentMessage));
    }
    result := result.(fragment := Some(fragmentNode.value.GetText()));
    var clearColorNode := FirstNamed(root.children, "ClearColor");
    if clearColorNode.Some? {
      var n := clearColorNode.value;
      result := result.(clearColor := Color(n.GetFloatInto("r", parsedColor.r, result.clearColor.r),
                                            n.GetFloatInto("g", parsedColor.g, result.clearColor.g),
                                            n.GetFloatInto("b", parsedColor.b, result.clearColor.b),
                                            n.GetFloatInto("a", parsedColor.a, result.clearColor.a)));
    }
    var sharedBufferManager := root.GetAttributeInto("shared", "");
    if sharedBufferManager != "" {
      result := result.(bufferManager := BufferDescriptor.SharedManager);
    }
    var cullingMode := root.GetAttributeInto("culling", "front");
    if cullingMode == "back" {
      result := result.(culling := BackfaceCulling);
    } else {
      result := result.(culling := FrontfaceCulling);
    }
    r := CreatePipeline(windows.windowIdMap, windowStrIdentifier, result, backend);
  }

  /** A missing `<Vertex>` is reported as such whether or not `<Fragment>` is present. */
  lemma VertexCheckedFirst(root: ConfigNode, parsedColor: Color)
    requires root.HasAttribute("window") && root.attributes["window"] != ""
    requires FirstNamed(root.children, "Vertex").None?
    ensures Decode(root, parsedColor) == Err(ParsingFailure(NoVertexMessage))
  {
  }

  /** A decoded pipeline for a known window reaches the back-end with that window's identifier. */
  lemma DecodedReachesBackend(windows: WindowManager.WindowMap, root: ConfigNode, parsedColor: Color, backend: Descriptor -> Descriptor)
    requires Decode(root, parsedColor).Ok? && Decode(root, parsedColor).value.0 in windows
    ensures CreatePipeline(windows, Decode(root, parsedColor).value.0, Decode(root, parsedColor).value.1, backend)
            == Ok(backend(Decode(root, parsedColor).value.1.(window := windows[root.attributes["window"]])))
  {
  }
}
