/**
 * One element of a parsed configuration file (ConfigNode.cpp): a name, a text, an attribute
 * map and an ordered list of children; and the `FlagList` subclass, whose children become
 * a list of flag names instead of child nodes.
 */
module Config {
  import opened Wrappers
  import opened MapInsert

  /** The children of `cs` whose name is `n`, in their order in `cs`. */
  function NamedChildren(cs: seq<ConfigNode>, n: string): (r: seq<ConfigNode>)
    reads cs
    ensures |r| <= |cs|
    ensures forall c :: c in r ==> c in cs && c.name == n
    ensures forall c :: c in cs && c.name == n ==> c in r
    decreases |cs|
  {
    if |cs| == 0 then []
    else (if cs[0].name == n then [cs[0]] else []) + NamedChildren(cs[1..], n)
  }

  /** Scanning one more child extends the selection by that child when its name matches. */
  lemma {:induction false} NamedChildrenSnoc(cs: seq<ConfigNode>, c: ConfigNode, n: string)
    ensures NamedChildren(cs + [c], n) == NamedChildren(cs, n) + (if c.name == n then [c] else [])
    decreases |cs|
  {
    if |cs| == 0 {
      assert (cs + [c])[1..] == [];
    } else {
      assert (cs + [c])[1..] == cs[1..] + [c];
      NamedChildrenSnoc(cs[1..], c, n);
    }
  }

  /** The first child listed by `NamedChildren` is the first child of `cs` with that name. */
  lemma {:induction false} FirstNamedChild(cs: seq<ConfigNode>, n: string)
    requires |NamedChildren(cs, n)| > 0
    ensures exists i :: 0 <= i < |cs| && cs[i] == NamedChildren(cs, n)[0]
              && forall j :: 0 <= j < i ==> cs[j].name != n
    decreases |cs|
  {
    if cs[0].name != n {
      FirstNamedChild(cs[1..], n);
      var i :| 0 <= i < |cs[1..]| && cs[1..][i] == NamedChildren(cs[1..], n)[0]
                && forall j :: 0 <= j < i ==> cs[1..][j].name != n;
      assert cs[i + 1] == NamedChildren(cs, n)[0];
      forall j | 0 <= j < i + 1 ensures cs[j].name != n {
        if j > 0 {
          assert cs[j] == cs[1..][j - 1];
        }
      }
    } else {
      assert cs[0] == NamedChildren(cs, n)[0];
    }
  }

  /** The first child of `cs` named `n`, or `None` when no child has that name. */
  function FirstNamed(cs: seq<ConfigNode>, n: string): (r: Option<ConfigNode>)
    reads cs
    ensures r.None? <==> forall c :: c in cs ==> c.name != n
    ensures r.Some? ==> r.value in cs && r.value.name == n
  {
    var named := NamedChildren(cs, n);
    if |named| == 0 then None else assert named[0] in named; Some(named[0])
  }

  /** A node of the configuration tree (`ConfigNode`, or `ConfigHelpers::FlagList` when `isFlagList`). */
  class ConfigNode {
    /** `_name`. */
    var name: string
    /** `_text`. */
    var text: string
    /** `_attrMap`. */
    var attributes: map<string, string>
    /** `_childMap`: the children in insertion order. */
    var children: seq<ConfigNode>
    /** Whether the dynamic type is `FlagList`, which overrides `addChild`. */
    const isFlagList: bool
    /** `FlagList::_flags`: the names of the children added to a flag list. */
    var flags: seq<string>

    /** `ConfigNode()`: no attributes, no children, empty text. */
    constructor ()
      ensures !isFlagList && name == "" && text == ""
      ensures attributes == map[] && children == [] && flags == []
    {
      isFlagList := false;
      name := "";
      text := "";
      attributes := map[];
      children := [];
      flags := [];
    }

    /** `FlagList()`: a node whose children are recorded as flag names. */
    constructor FlagList()
      ensures isFlagList && name == "" && text == ""
      ensures attributes == map[] && children == [] && flags == []
    {
      isFlagList := true;
      name := "";
      text := "";
      attributes := map[];
      children := [];
      flags := [];
    }

    /** `hasAttribute`. */
    function HasAttribute(n: string): (b: bool)
      reads this
      ensures b <==> n in attributes.Keys
    {
      n in attributes
    }

    /** `getAttribute(name)`: the stored value; the source dereferences `end()` for an absent name. */
    function GetAttribute(n: string): (v: string)
      requires HasAttribute(n)
      reads this
      ensures v == attributes[n]
    {
      attributes[n]
    }

    /** `getAttribute<std::string>(name, out)`: the stored value, or `out` unchanged when absent. */
    function GetAttributeInto(n: string, out: string): (v: string)
      reads this
      ensures !HasAttribute(n) ==> v == out
      ensures HasAttribute(n) ==> v == GetAttribute(n)
    {
      if HasAttribute(n) then GetAttribute(n) else out
    }

    /**
     * `getAttribute<float>(name, out)`: `converted` is what the number parser writes for the
     * stored text; an absent name leaves `out` unchanged.
     */
    function GetFloatInto(n: string, converted: real, out: real): (v: real)
      reads this
      ensures !HasAttribute(n) ==> v == out
      ensures HasAttribute(n) ==> v == converted
    {
      if HasAttribute(n) then converted else out
    }

    /**
     * `getAttribute<unsigned int>(name, out)`: the number parser's boolean success result is
     * assigned over `*out`, so a present name always stores 0 or 1; `converted` is that
     * success result. An absent name leaves `out` unchanged.
     */
    function GetUnsignedInto(n: string, converted: bool, out: u32): (v: u32)
      reads this
      ensures !HasAttribute(n) ==> v == out
      ensures HasAttribute(n) ==> v == (if converted then 1 else 0)
    {
      if !HasAttribute(n) then out
      else if converted then 1 else 0
    }

    /** `addAttribute`: `map::insert`, so a name already present keeps its first value. */
    method AddAttribute(n: string, value: string)
      modifies this
      ensures attributes == Inserted(old(attributes), n, value)
      ensures name == old(name) && text == old(text) && children == old(children) && flags == old(flags)
    {
      if n !in attributes {
        attributes := attributes[n := value];
      }
    }

    /** `getText`. */
    function GetText(): string
      reads this
    {
      text
    }

    /** `getName`. */
    function GetName(): string
      reads this
    {
      name
    }

    /** `setText`. */
    method SetText(t: string)
      modifies this
      ensures text == t
      ensures name == old(name) && attributes == old(attributes) && children == old(children) && flags == old(flags)
    {
      text := t;
    }

    /** `setName`. */
    method SetName(n: string)
      modifies this
      ensures name == n
      ensures text == old(text) && attributes == old(attributes) && children == old(children) && flags == old(flags)
    {
      name := n;
    }

    /**
     * `addChild`, dispatched on the dynamic type: a plain node appends the child at the end;
     * a `FlagList` appends the child's name to its flags and keeps no child.
     */
    method AddChild(child: ConfigNode)
      modifies this
      ensures !isFlagList ==> children == old(children) + [child] && flags == old(flags)
      ensures isFlagList ==> flags == old(flags) + [child.name] && children == old(children)
      ensures name == old(name) && text == old(text) && attributes == old(attributes)
    {
      if isFlagList {
        flags := flags + [child.name];
      } else {
        children := children + [child];
      }
    }

    /** `getChildElementsByName`: exactly the children named `n`, in insertion order. */
    method GetChildElementsByName(n: string) returns (out: seq<ConfigNode>)
      ensures out == NamedChildren(children, n)
    {
      out := [];
      var i := 0;
      while i < |children|
        invariant 0 <= i <= |children|
        invariant out == NamedChildren(children[..i], n)
      {
        assert children[..i + 1] == children[..i] + [children[i]];
        NamedChildrenSnoc(children[..i], children[i], n);
        if children[i].name == n {
          out := out + [children[i]];
        }
        i := i + 1;
      }
      assert children[..|children|] == children;
    }

    /** `getChildElementByName`: the first child named `n`, or a null reference when there is none. */
    method GetChildElementByName(n: string) returns (r: Option<ConfigNode>)
      ensures r == FirstNamed(children, n)
      ensures r.None? <==> forall c :: c in children ==> c.name != n
      ensures r.Some? ==> exists i :: 0 <= i < |children| && children[i] == r.value
                            && r.value.name == n && forall j :: 0 <= j < i ==> children[j].name != n
    {
      var named := GetChildElementsByName(n);
      if |named| > 0 {
        FirstNamedChild(children, n);
        assert named[0] in named;
        r := Some(named[0]);
      } else {
        r := None;
      }
    }
  }

  /**
   * A node built by adding the attributes `adds` in order has exactly the added names, and
   * each maps to the value of its first addition.
   */
  lemma AttributesAfterAdds(adds: seq<(string, string)>, n: string)
    ensures n in InsertAll(map[], adds) <==> n in KeysOf(adds)
    ensures n in KeysOf(adds) ==> InsertAll(map[], adds)[n] == adds[FirstIndex(adds, n)].1
  {
    InsertAllKeys(map[], adds);
    FirstInsertionWins(map[], adds, n);
    if n in KeysOf(adds) {
      var i :| 0 <= i < |adds| && adds[i].0 == n;
      assert FirstIndex(adds, n) <= i;
    }
  }

  /** Adding the attributes one by one builds the map `AttributesAfterAdds` describes. */
  method AddAttributes(node: ConfigNode, adds: seq<(string, string)>)
    modifies node
    ensures node.attributes == InsertAll(old(node.attributes), adds)
    ensures node.children == old(node.children) && node.flags == old(node.flags)
  {
    var i := 0;
    while i < |adds|
      invariant 0 <= i <= |adds|
      invariant InsertAll(old(node.attributes), adds) == InsertAll(node.attributes, adds[i..])
      invariant node.children == old(node.children) && node.flags == old(node.flags)
    {
      assert adds[i..][1..] == adds[i + 1..];
      node.AddAttribute(adds[i].0, adds[i].1);
      i := i + 1;
    }
  }
}
