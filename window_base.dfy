/**
 * The macOS window back-end (macOS/Swift/WindowBase.swift): a registry of windows keyed by
 * identifiers issued from a counter, and the translation between window flags and AppKit
 * style masks.
 *
 * The AppKit `NSWindow.StyleMask` raw values are not assumed: they are the fields of a
 * `StyleBits` parameter, and the translation lemmas state the hypotheses they need. A 64-bit
 * raw value is modelled as the set of positions of its one bits, so `a | b` is `a + b` and
 * `(a & b) > 0` is `a * b != {}`. Window geometry and the screen a window is on are what
 * AppKit reports, so they are parameters.
 */
module WindowBase {
  import opened Wrappers
  import opened WindowDescriptor

  /** A bit position of a 64-bit `UInt`. */
  type Bit = i: nat | i < 64

  /** A 64-bit raw value: the positions of its one bits. */
  type RawMask = set<Bit>

  /** The raw values of the AppKit style mask members the back-end uses. */
  datatype StyleBits = StyleBits(closable: RawMask, resizable: RawMask, miniaturizable: RawMask,
                                 fullScreen: RawMask, borderless: RawMask, titled: RawMask)

  /**
   * The six raw values are pairwise disjoint, and all but `borderless` are non-zero. AppKit's
   * own `borderless` is 0, which this allows.
   */
  predicate DisjointBits(s: StyleBits)
  {
    && s.closable != {} && s.resizable != {} && s.miniaturizable != {}
    && s.fullScreen != {} && s.titled != {}
    && s.closable !! s.resizable && s.closable !! s.miniaturizable && s.closable !! s.fullScreen
    && s.closable !! s.borderless && s.closable !! s.titled
    && s.resizable !! s.miniaturizable && s.resizable !! s.fullScreen
    && s.resizable !! s.borderless && s.resizable !! s.titled
    && s.miniaturizable !! s.fullScreen && s.miniaturizable !! s.borderless && s.miniaturizable !! s.titled
    && s.fullScreen !! s.borderless && s.fullScreen !! s.titled
    && s.borderless !! s.titled
  }

  /** The six raw values are pairwise disjoint and all non-zero, `borderless` included. */
  predicate DistinctBits(s: StyleBits)
  {
    DisjointBits(s) && s.borderless != {}
  }

  /** `mask |= bit` on a raw style mask. */
  function Or(mask: RawMask, bit: RawMask): RawMask
  {
    mask + bit
  }

  /** The style mask after `if cond { mask |= bit }`. */
  function OrIf(mask: RawMask, cond: bool, bit: RawMask): RawMask
  {
    if cond then Or(mask, bit) else mask
  }

  /** The flags after `if cond { mask |= bit }`. */
  function OrIf32(mask: bv32, cond: bool, bit: bv32): bv32
  {
    if cond then mask | bit else mask
  }

  /** The test `(style & bit) > 0` on an unsigned style mask. */
  function Has(style: RawMask, bit: RawMask): bool
  {
    style * bit != {}
  }

  /** The part of the style `parseWindowFlags` builds from Closable, Resizable and Miniaturizable. */
  function ButtonStyle(flags: bv32, s: StyleBits): RawMask
  {
    OrIf(OrIf(OrIf({}, flags & Closable > 0, s.closable), flags & Resizable > 0, s.resizable),
         flags & Miniaturizable > 0, s.miniaturizable)
  }

  /**
   * The style mask `parseWindowFlags` builds for `flags`: the button bits, then fullScreen
   * under Fullscreen, else borderless under Borderless, else titled.
   */
  function StyleOf(flags: bv32, s: StyleBits): RawMask
  {
    var full := flags & Fullscreen > 0;
    var border := flags & Borderless > 0;
    OrIf(OrIf(OrIf(ButtonStyle(flags, s), full, s.fullScreen), !full && border, s.borderless),
         !full && !border, s.titled)
  }

  /** The flags `parseWindowStyle` reads back from a style mask, tested in the source's order. */
  function FlagsOf(style: RawMask, s: StyleBits): bv32
  {
    OrIf32(OrIf32(OrIf32(OrIf32(OrIf32(0, Has(style, s.closable), Closable), Has(style, s.resizable), Resizable),
                                Has(style, s.borderless), Borderless), Has(style, s.fullScreen), Fullscreen),
           Has(style, s.miniaturizable), Miniaturizable)
  }

  /** `parseWindowFlags`: each flag ORs its style bit into the mask in turn. */
  method ParseWindowFlags(flags: bv32, s: StyleBits) returns (mask: RawMask)
    ensures mask == StyleOf(flags, s)
  {
    mask := {};
    if flags & Closable > 0 { mask := Or(mask, s.closable); }
    if flags & Resizable > 0 { mask := Or(mask, s.resizable); }
    if flags & Miniaturizable > 0 { mask := Or(mask, s.miniaturizable); }
    if flags & Fullscreen > 0 {
      mask := Or(mask, s.fullScreen);
    } else {
      if flags & Borderless > 0 { mask := Or(mask, s.borderless); } else { mask := Or(mask, s.titled); }
    }
  }

  /** `parseWindowStyle`: 0 without a window, else each style bit present ORs in its flag. */
  method ParseWindowStyle(window: Option<RawMask>, s: StyleBits) returns (mask: bv32)
    ensures window.None? ==> mask == 0
    ensures window.Some? ==> mask == FlagsOf(window.value, s)
  {
    if window.None? {
      return 0;
    }
    var style := window.value;
    var closable, resizable, borderless := Has(style, s.closable), Has(style, s.resizable), Has(style, s.borderless);
    var fullScreen, miniaturizable := Has(style, s.fullScreen), Has(style, s.miniaturizable);
    mask := 0;
    if closable { mask := mask | Closable; }
    if resizable { mask := mask | Resizable; }
    if borderless { mask := mask | Borderless; }
    if fullScreen { mask := mask | Fullscreen; }
    if miniaturizable { mask := mask | Miniaturizable; }
  }

  /** OR-ing a bit into a mask adds exactly the bits of `bit` to those `k` finds. */
  lemma HasOr(mask: RawMask, bit: RawMask, k: RawMask)
    ensures Has(Or(mask, bit), k) <==> Has(mask, k) || Has(bit, k)
  {
    assert (mask + bit) * k == mask * k + bit * k;
  }

  lemma HasOrIf(mask: RawMask, cond: bool, bit: RawMask, k: RawMask)
    ensures Has(OrIf(mask, cond, bit), k) <==> Has(mask, k) || (cond && Has(bit, k))
  {
    if cond {
      HasOr(mask, bit, k);
    }
  }

  /** A non-zero bit disjoint from five others is found in itself and in none of them. */
  lemma Only(k: RawMask, a: RawMask, b: RawMask, c: RawMask, d: RawMask, e: RawMask)
    requires k != {} && a !! k && b !! k && c !! k && d !! k && e !! k
    ensures Has(k, k) && !Has(a, k) && !Has(b, k) && !Has(c, k) && !Has(d, k) && !Has(e, k)
  {
    assert k * k == k;
  }

  /** Which bits the button part of a style has in common with `k`. */
  lemma ButtonBits(flags: bv32, s: StyleBits, k: RawMask)
    ensures Has(ButtonStyle(flags, s), k) <==>
              (flags & Closable > 0 && Has(s.closable, k)) || (flags & Resizable > 0 && Has(s.resizable, k))
              || (flags & Miniaturizable > 0 && Has(s.miniaturizable, k))
  {
    var c := flags & Closable > 0;
    var r := flags & Resizable > 0;
    var m1 := OrIf({}, c, s.closable);
    var m2 := OrIf(m1, r, s.resizable);
    assert !Has({}, k);
    HasOrIf({}, c, s.closable, k);
    HasOrIf(m1, r, s.resizable, k);
    HasOrIf(m2, flags & Miniaturizable > 0, s.miniaturizable, k);
  }

  /** Which bits a whole style has in common with `k`. */
  lemma StyleBitsOf(flags: bv32, s: StyleBits, k: RawMask)
    ensures Has(StyleOf(flags, s), k) <==>
              Has(ButtonStyle(flags, s), k)
              || (flags & Fullscreen > 0 && Has(s.fullScreen, k))
              || (flags & Fullscreen == 0 && flags & Borderless > 0 && Has(s.borderless, k))
              || (flags & Fullscreen == 0 && flags & Borderless == 0 && Has(s.titled, k))
  {
    var full := flags & Fullscreen > 0;
    var border := flags & Borderless > 0;
    var m3 := ButtonStyle(flags, s);
    var m4 := OrIf(m3, full, s.fullScreen);
    var m5 := OrIf(m4, !full && border, s.borderless);
    HasOrIf(m3, full, s.fullScreen, k);
    HasOrIf(m4, !full && border, s.borderless, k);
    HasOrIf(m5, !full && !border, s.titled, k);
  }

  lemma ClosableBit(flags: bv32, s: StyleBits)
    requires DisjointBits(s)
    ensures Has(StyleOf(flags, s), s.closable) <==> flags & Closable > 0
  {
    Only(s.closable, s.resizable, s.miniaturizable, s.fullScreen, s.borderless, s.titled);
    StyleBitsOf(flags, s, s.closable);
    ButtonBits(flags, s, s.closable);
  }

  lemma ResizableBit(flags: bv32, s: StyleBits)
    requires DisjointBits(s)
    ensures Has(StyleOf(flags, s), s.resizable) <==> flags & Resizable > 0
  {
    Only(s.resizable, s.closable, s.miniaturizable, s.fullScreen, s.borderless, s.titled);
    StyleBitsOf(flags, s, s.resizable);
    ButtonBits(flags, s, s.resizable);
  }

  lemma MiniaturizableBit(flags: bv32, s: StyleBits)
    requires DisjointBits(s)
    ensures Has(StyleOf(flags, s), s.miniaturizable) <==> flags & Miniaturizable > 0
  {
    Only(s.miniaturizable, s.closable, s.resizable, s.fullScreen, s.borderless, s.titled);
    StyleBitsOf(flags, s, s.miniaturizable);
    ButtonBits(flags, s, s.miniaturizable);
  }

  lemma FullscreenBit(flags: bv32, s: StyleBits)
    requires DisjointBits(s)
    ensures Has(StyleOf(flags, s), s.fullScreen) <==> flags & Fullscreen > 0
  {
    Only(s.fullScreen, s.closable, s.resizable, s.miniaturizable, s.borderless, s.titled);
    StyleBitsOf(flags, s, s.fullScreen);
    ButtonBits(flags, s, s.fullScreen);
  }

  lemma BorderlessBit(flags: bv32, s: StyleBits)
    requires DistinctBits(s)
    ensures Has(StyleOf(flags, s), s.borderless) <==> flags & Fullscreen == 0 && flags & Borderless > 0
  {
    Only(s.borderless, s.closable, s.resizable, s.miniaturizable, s.fullScreen, s.titled);
    StyleBitsOf(flags, s, s.borderless);
    ButtonBits(flags, s, s.borderless);
  }

  lemma TitledBit(flags: bv32, s: StyleBits)
    requires DisjointBits(s)
    ensures Has(StyleOf(flags, s), s.titled) <==> flags & Fullscreen == 0 && flags & Borderless == 0
  {
    Only(s.titled, s.closable, s.resizable, s.miniaturizable, s.fullScreen, s.borderless);
    StyleBitsOf(flags, s, s.titled);
    ButtonBits(flags, s, s.titled);
  }

  /** Closable, Resizable and Miniaturizable each select their own style bit, independently. */
  lemma IndependentBits(flags: bv32, s: StyleBits)
    requires DisjointBits(s)
    ensures Has(StyleOf(flags, s), s.closable) <==> flags & Closable > 0
    ensures Has(StyleOf(flags, s), s.resizable) <==> flags & Resizable > 0
    ensures Has(StyleOf(flags, s), s.miniaturizable) <==> flags & Miniaturizable > 0
  {
    ClosableBit(flags, s);
    ResizableBit(flags, s);
    MiniaturizableBit(flags, s);
  }

  /**
   * Fullscreen suppresses both the borderless and the titled bit; without it exactly one of
   * the two is set, borderless exactly when the Borderless flag is.
   */
  lemma FrameStyle(flags: bv32, s: StyleBits)
    requires DistinctBits(s)
    ensures flags & Fullscreen > 0 ==>
              (Has(StyleOf(flags, s), s.fullScreen) && !Has(StyleOf(flags, s), s.borderless)
               && !Has(StyleOf(flags, s), s.titled))
    ensures flags & Fullscreen == 0 ==>
              (!Has(StyleOf(flags, s), s.fullScreen)
               && (Has(StyleOf(flags, s), s.borderless) <==> flags & Borderless > 0)
               && (Has(StyleOf(flags, s), s.titled) <==> flags & Borderless == 0))
  {
    FullscreenBit(flags, s);
    BorderlessBit(flags, s);
    TitledBit(flags, s);
  }

  /** The flags read back from the five tests, whatever the style mask behind them. */
  lemma FlagsFromTests(flags: bv32, c: bool, r: bool, m: bool, f: bool, b: bool)
    requires c == (flags & Closable > 0) && r == (flags & Resizable > 0)
    requires m == (flags & Miniaturizable > 0) && f == (flags & Fullscreen > 0)
    requires b == (flags & Fullscreen == 0 && flags & Borderless > 0)
    ensures OrIf32(OrIf32(OrIf32(OrIf32(OrIf32(0, c, Closable), r, Resizable), b, Borderless), f, Fullscreen), m, Miniaturizable)
            == if flags & Fullscreen > 0 then flags & (KnownFlags & !Borderless) else flags & KnownFlags
  {
  }

  /** The flags `parseWindowFlags` translates: the five defined bits. */
  const KnownFlags: bv32 := Resizable | Closable | Miniaturizable | Fullscreen | Borderless

  /**
   * Reading back the style of a window created with `flags` gives its known flags, except that
   * Borderless is lost under Fullscreen.
   */
  lemma StyleRoundTrip(flags: bv32, s: StyleBits)
    requires DistinctBits(s)
    ensures FlagsOf(StyleOf(flags, s), s)
            == if flags & Fullscreen > 0 then flags & (KnownFlags & !Borderless) else flags & KnownFlags
  {
    var t := StyleOf(flags, s);
    IndependentBits(flags, s);
    FullscreenBit(flags, s);
    BorderlessBit(flags, s);
    FlagsFromTests(flags, Has(t, s.closable), Has(t, s.resizable), Has(t, s.miniaturizable),
                   Has(t, s.fullScreen), Has(t, s.borderless));
  }

  /**
   * A style member whose raw value is 0 (as AppKit's `borderless` is) is never found in any
   * mask, so under such a value `parseWindowStyle` never reports Borderless.
   */
  lemma ZeroBorderlessNeverRead(style: RawMask, s: StyleBits)
    requires s.borderless == {}
    ensures FlagsOf(style, s) & Borderless == 0
  {
    assert !Has(style, s.borderless);
  }

  /** The flags read back when the borderless test never fires. */
  lemma FlagsFromTestsWithoutBorderless(flags: bv32, c: bool, r: bool, m: bool, f: bool)
    requires c == (flags & Closable > 0) && r == (flags & Resizable > 0)
    requires m == (flags & Miniaturizable > 0) && f == (flags & Fullscreen > 0)
    ensures OrIf32(OrIf32(OrIf32(OrIf32(OrIf32(0, c, Closable), r, Resizable), false, Borderless), f, Fullscreen), m, Miniaturizable)
            == flags & (KnownFlags & !Borderless)
  {
  }

  /**
   * With AppKit's zero `borderless`, reading back the style of a window created with `flags`
   * gives its known flags without Borderless, whether or not Fullscreen is set.
   */
  lemma ZeroBorderlessRoundTrip(flags: bv32, s: StyleBits)
    requires DisjointBits(s) && s.borderless == {}
    ensures FlagsOf(StyleOf(flags, s), s) == flags & (KnownFlags & !Borderless)
  {
    var t := StyleOf(flags, s);
    IndependentBits(flags, s);
    FullscreenBit(flags, s);
    assert !Has(t, s.borderless);
    FlagsFromTestsWithoutBorderless(flags, Has(t, s.closable), Has(t, s.resizable), Has(t, s.miniaturizable),
                                    Has(t, s.fullScreen));
  }

  /** `screenByIndex`: the screen at `index` among `screenCount` screens, if there is one. */
  function ScreenByIndex(index: u32, screenCount: nat): (screen: Option<nat>)
    ensures screen.Some? <==> index < screenCount
    ensures screen.Some? ==> screen.value == index
  {
    if index >= 0 && index < screenCount then Some(index) else None
  }

  /** `indexFromScreen`: 0 without a screen, else the screen's position in the screen list. */
  function IndexFromScreen(screen: Option<u32>): (index: u32)
    ensures screen.None? ==> index == 0
    ensures screen.Some? ==> index == screen.value
  {
    match screen
    case None => 0
    case Some(i) => i
  }

  /** The AppKit state of a window the back-end changes: its style mask and its title. */
  datatype Window = Window(styleMask: RawMask, title: string)

  /** The singleton `Mobius_WindowManagerBase`. */
  class Registry {
    /** `_windowDict`, by identifier. */
    var windowDict: map<u32, Window>
    /** `_windowCounter`: the last identifier issued. */
    var windowCounter: u32

    /** Every registered identifier was issued: it lies in 1 .. windowCounter. */
    predicate Valid()
      reads this
    {
      forall id :: id in windowDict ==> 1 <= id <= windowCounter
    }

    /** `init`: no windows, counter 0. */
    constructor ()
      ensures windowDict == map[] && windowCounter == 0 && Valid()
    {
      windowDict := map[];
      windowCounter := 0;
    }

    /**
     * `queryWindow`: nothing for an identifier with no window; otherwise a descriptor carrying
     * the identifier, the flags read back from the style mask, and what AppKit reports for the
     * frame and the screen. The title is not read back.
     */
    method QueryWindow(index: u32, s: StyleBits, frame: Rect2f, screen: Option<u32>) returns (d: Option<Descriptor>)
      ensures d.None? <==> index !in windowDict
      ensures d.Some? ==> d.value == Descriptor(index, frame, FlagsOf(windowDict[index].styleMask, s), IndexFromScreen(screen), None)
    {
      if index !in windowDict {
        return None;
      }
      var window := windowDict[index];
      var flags := ParseWindowStyle(Some(window.styleMask), s);
      d := Some(Descriptor(index, frame, flags, IndexFromScreen(screen), None));
    }

    /**
     * `createWindow`: the window gets the style of the requested flags and, when one is given,
     * the requested title; it is registered under the next counter value, which is returned
     * through a query. The counter increment traps on overflow.
     */
    method CreateWindow(descriptor: Descriptor, s: StyleBits, frame: Rect2f, screen: Option<u32>) returns (d: Option<Descriptor>)
      requires Valid() && windowCounter < UINT_MAX
      modifies this
      ensures windowCounter == old(windowCounter) + 1 && windowCounter !in old(windowDict)
      ensures windowDict == old(windowDict)[windowCounter := Window(StyleOf(descriptor.flags, s),
                                                                   if descriptor.title.Some? then descriptor.title.value else "")]
      ensures d == Some(Descriptor(windowCounter, frame, FlagsOf(StyleOf(descriptor.flags, s), s), IndexFromScreen(screen), None))
      ensures Valid()
    {
      var styleMask := ParseWindowFlags(descriptor.flags, s);
      var title := "";
      if descriptor.title.Some? {
        title := descriptor.title.value;
      }
      windowCounter := windowCounter + 1;
      windowDict := windowDict[windowCounter := Window(styleMask, title)];
      d := QueryWindow(windowCounter, s, frame, screen);
    }

    /**
     * `updateWindow`: nothing for an identifier with no window; otherwise the window takes the
     * new style and title, and the answer is the query of the last identifier issued, which
     * need not be `index`. Reading the title traps when it is null.
     */
    method UpdateWindow(index: u32, descriptor: Descriptor, s: StyleBits, frame: Rect2f, screen: Option<u32>)
      returns (d: Option<Descriptor>)
      requires index in windowDict ==> descriptor.title.Some?
      modifies this
      ensures index !in old(windowDict) ==> d.None? && windowDict == old(windowDict)
      ensures index in old(windowDict) ==>
                windowDict == old(windowDict)[index := Window(StyleOf(descriptor.flags, s), descriptor.title.value)]
      ensures index in old(windowDict) && windowCounter in windowDict ==>
                d == Some(Descriptor(windowCounter, frame, FlagsOf(windowDict[windowCounter].styleMask, s), IndexFromScreen(screen), None))
      ensures index in old(windowDict) && windowCounter !in windowDict ==> d.None?
      ensures windowCounter == old(windowCounter)
    {
      if index !in windowDict {
        return None;
      }
      var styleMask := ParseWindowFlags(descriptor.flags, s);
      windowDict := windowDict[index := Window(styleMask, descriptor.title.value)];
      d := QueryWindow(windowCounter, s, frame, screen);
    }

    /** `closeWindow`: removes exactly that identifier; an absent one is left alone. */
    method CloseWindow(identifier: u32)
      modifies this
      ensures windowDict == old(windowDict) - {identifier}
      ensures windowCounter == old(windowCounter)
      ensures old(Valid()) ==> Valid()
    {
      if identifier !in windowDict {
        return;
      }
      windowDict := windowDict - {identifier};
    }
  }

  /** Identifiers are never reused: a window created after another was closed gets a new one. */
  method CloseThenCreate(registry: Registry, closed: u32, descriptor: Descriptor, s: StyleBits, frame: Rect2f)
    returns (d: Option<Descriptor>)
    requires registry.Valid() && registry.windowCounter < UINT_MAX && closed in registry.windowDict
    modifies registry
    ensures d.Some? && d.value.identifier != closed && d.value.identifier > closed
  {
    registry.CloseWindow(closed);
    d := registry.CreateWindow(descriptor, s, frame, None);
  }

  /** An update of an older window answers with the newest window's identifier. */
  method UpdateAnswersNewest(registry: Registry, descriptor: Descriptor, s: StyleBits, frame: Rect2f)
    returns (first: Option<Descriptor>, second: Option<Descriptor>, answer: Option<Descriptor>)
    requires registry.Valid() && registry.windowCounter < UINT_MAX - 1 && descriptor.title.Some?
    modifies registry
    ensures first.Some? && second.Some? && answer.Some?
    ensures answer.value.identifier == second.value.identifier != first.value.identifier
  {
    first := registry.CreateWindow(descriptor, s, frame, None);
    second := registry.CreateWindow(descriptor, s, frame, None);
    answer := registry.UpdateWindow(first.value.identifier, descriptor, s, frame, None);
  }
}
