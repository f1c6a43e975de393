/**
 * The window descriptor (Window/Descriptor.cpp): the plain record that the window manager
 * and the platform back-end exchange, its flag bits, and the parsing of flag names.
 *
 * `cMB_RNDR_WIN_Descriptor` is a C struct passed and returned by value, so it is a datatype;
 * its copy constructor is value copy. Flags are the 32-bit `unsigned int` of the source.
 */
module WindowDescriptor {
  import opened Wrappers

  const Resizable: bv32 := 0x01
  const Closable: bv32 := 0x02
  const Miniaturizable: bv32 := 0x04
  const Fullscreen: bv32 := 0x08
  const Borderless: bv32 := 0x10
  const Default: bv32 := 0x07
  const Invalid: bv32 := 0x00

  /** The flag names `parseFlag` recognises, spelled exactly as it compares them. */
  const FlagNames: set<string> := {"Closable", "Miniaturizable", "Resizable", "Borderless", "Fullscreen"}

  /** `cMB_MATH_Rect2f`: origin and size. The frame is only carried, never computed on. */
  datatype Rect2f = Rect2f(x: real, y: real, w: real, h: real)

  /** `cMB_RNDR_WIN_Descriptor`; `title == None` stands for a null `const char *`. */
  datatype Descriptor = Descriptor(identifier: u32, frame: Rect2f, flags: bv32, screen: u32, title: Option<string>)

  /** The default descriptor: identifier 0, an empty frame, Invalid flags, screen 0, no title. */
  function DefaultDescriptor(): (d: Descriptor)
    ensures d.identifier == 0 && d.flags == Invalid && d.screen == 0 && d.title == None
    ensures d.frame == Rect2f(0.0, 0.0, 0.0, 0.0)
  {
    Descriptor(0, Rect2f(0.0, 0.0, 0.0, 0.0), Invalid, 0, None)
  }

  /** The Default flags are exactly Resizable, Closable and Miniaturizable. */
  lemma DefaultFlags()
    ensures Default == Resizable | Closable | Miniaturizable
    ensures Default & (Fullscreen | Borderless) == 0
  {
  }

  /** The bit that `parseFlag` ORs in for one name: a single bit for a recognised name, none otherwise. */
  function FlagBit(name: string): (b: bv32)
    ensures name !in FlagNames <==> b == Invalid
    ensures b & (b - 1) == 0 && b & !0x1F == 0
  {
    if name == "Closable" then Closable
    else if name == "Miniaturizable" then Miniaturizable
    else if name == "Resizable" then Resizable
    else if name == "Borderless" then Borderless
    else if name == "Fullscreen" then Fullscreen
    else Invalid
  }

  /** Different recognised names set different bits. */
  lemma FlagBitsDistinct(a: string, b: string)
    requires a in FlagNames && b in FlagNames && a != b
    ensures FlagBit(a) & FlagBit(b) == 0
  {
  }

  /** The five recognised names are pairwise different strings. */
  lemma FlagNamesDiffer()
    ensures "Closable" != "Miniaturizable" && "Closable" != "Resizable" && "Closable" != "Borderless"
    ensures "Closable" != "Fullscreen" && "Miniaturizable" != "Resizable" && "Miniaturizable" != "Borderless"
    ensures "Miniaturizable" != "Fullscreen" && "Resizable" != "Borderless" && "Resizable" != "Fullscreen"
    ensures "Borderless" != "Fullscreen"
  {
    assert "Borderless"[0] != "Fullscreen"[0];
  }

  /** `parseFlag`: each of the five comparisons ORs its bit into the flags when the name matches. */
  method ParseFlag(flags: bv32, flag: string) returns (r: bv32)
    ensures r == flags | FlagBit(flag)
    ensures flag !in FlagNames ==> r == flags
  {
    var closable := flag == "Closable";
    var miniaturizable := flag == "Miniaturizable";
    var resizable := flag == "Resizable";
    var borderless := flag == "Borderless";
    var fullscreen := flag == "Fullscreen";
    FlagNamesDiffer();
    r := flags;
    if closable { r := r | Closable; }
    if miniaturizable { r := r | Miniaturizable; }
    if resizable { r := r | Resizable; }
    if borderless { r := r | Borderless; }
    if fullscreen { r := r | Fullscreen; }
  }

  /** The flags after `parseFlag` of each name of `names` in order, starting from `f`. */
  function ParseFlags(f: bv32, names: seq<string>): bv32
    decreases |names|
  {
    if |names| == 0 then f else ParseFlags(f, names[..|names| - 1]) | FlagBit(names[|names| - 1])
  }

  /** Parsing one more name of a list ORs in that name's bit. */
  lemma ParseFlagsPrefix(f: bv32, names: seq<string>, i: nat)
    requires i < |names|
    ensures ParseFlags(f, names[..i + 1]) == ParseFlags(f, names[..i]) | FlagBit(names[i])
  {
    assert names[..i + 1][..i] == names[..i];
  }

  /** The union of the bits of the five flags whose test holds. */
  function MaskOfTests(closable: bool, miniaturizable: bool, resizable: bool, borderless: bool, fullscreen: bool): bv32
  {
    (if closable then Closable else Invalid)
    | (if miniaturizable then Miniaturizable else Invalid)
    | (if resizable then Resizable else Invalid)
    | (if borderless then Borderless else Invalid)
    | (if fullscreen then Fullscreen else Invalid)
  }

  /** The union of the bits of the recognised names occurring in `names`. */
  function MaskOf(names: seq<string>): bv32
  {
    MaskOfTests("Closable" in names, "Miniaturizable" in names, "Resizable" in names,
                "Borderless" in names, "Fullscreen" in names)
  }

  /** Two masks of tests combine into the mask of their disjunctions. */
  lemma MaskOfTestsOr(c: bool, m: bool, z: bool, b: bool, u: bool, c': bool, m': bool, z': bool, b': bool, u': bool)
    ensures MaskOfTests(c, m, z, b, u) | MaskOfTests(c', m', z', b', u')
            == MaskOfTests(c || c', m || m', z || z', b || b', u || u')
  {
  }

  /** The bit of a name is the mask of the comparisons `parseFlag` makes with it. */
  lemma FlagBitTests(n: string)
    ensures FlagBit(n) == MaskOfTests(n == "Closable", n == "Miniaturizable", n == "Resizable",
                                      n == "Borderless", n == "Fullscreen")
  {
    FlagNamesDiffer();
  }

  /** Appending a name adds its bit to the mask. */
  lemma MaskOfSnoc(names: seq<string>, n: string)
    ensures MaskOf(names + [n]) == MaskOf(names) | FlagBit(n)
  {
    var longer := names + [n];
    assert forall x :: x in longer <==> x in names || x == n;
    FlagBitTests(n);
    MaskOfTestsOr("Closable" in names, "Miniaturizable" in names, "Resizable" in names,
                  "Borderless" in names, "Fullscreen" in names,
                  n == "Closable", n == "Miniaturizable", n == "Resizable", n == "Borderless", n == "Fullscreen");
  }

  /** Bitwise or is associative. */
  lemma OrAssociates(a: bv32, b: bv32, c: bv32)
    ensures (a | b) | c == a | (b | c)
  {
  }

  /** Parsing a list of names ORs in exactly the bits of the recognised names in it. */
  lemma {:induction false} ParseFlagsMask(f: bv32, names: seq<string>)
    ensures ParseFlags(f, names) == f | MaskOf(names)
    decreases |names|
  {
    if |names| == 0 {
      assert MaskOf(names) == Invalid;
    } else {
      var init := names[..|names| - 1];
      var last := names[|names| - 1];
      ParseFlagsMask(f, init);
      assert names == init + [last];
      MaskOfSnoc(init, last);
      OrAssociates(f, MaskOf(init), FlagBit(last));
    }
  }

  /** Two lists naming the same flags have the same mask. */
  lemma MaskOfSameMembers(a: seq<string>, b: seq<string>)
    requires forall n :: n in a <==> n in b
    ensures MaskOf(a) == MaskOf(b)
  {
    var c := "Closable" in a;
    assert c == ("Closable" in b);
    var m := "Miniaturizable" in a;
    assert m == ("Miniaturizable" in b);
    var z := "Resizable" in a;
    assert z == ("Resizable" in b);
    var d := "Borderless" in a;
    assert d == ("Borderless" in b);
    var u := "Fullscreen" in a;
    assert u == ("Fullscreen" in b);
  }

  /** The order of the flag names does not matter: two lists naming the same flags parse alike. */
  lemma ParseFlagsOrderFree(f: bv32, a: seq<string>, b: seq<string>)
    requires forall n :: n in a <==> n in b
    ensures ParseFlags(f, a) == ParseFlags(f, b)
  {
    ParseFlagsMask(f, a);
    ParseFlagsMask(f, b);
    MaskOfSameMembers(a, b);
  }

  /** Parsing is idempotent: parsing the same names again changes nothing. */
  lemma ParseFlagsIdempotent(f: bv32, names: seq<string>)
    ensures ParseFlags(ParseFlags(f, names), names) == ParseFlags(f, names)
  {
    var once := ParseFlags(f, names);
    ParseFlagsMask(f, names);
    ParseFlagsMask(once, names);
    OrAssociates(f, MaskOf(names), MaskOf(names));
  }
}
