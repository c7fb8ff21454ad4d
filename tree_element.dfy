// The stateful side of jstatutree/tree_element.py: the lazily filled attributes of
// a TreeElement, the children dict _find_children builds, inheritance,
// get_virtual_node and delete_values.
module TreeElements {
  import opened Errors
  import opened Strings
  import opened Etypes
  import opened Lawdata
  import opened TreeNodes
  import TreeSearch

  // ---------------------------------------------------------------------------
  // The children dict of _find_children
  // ---------------------------------------------------------------------------

  /** A Python dict from names to children: its keys in insertion order and its entries. */
  datatype ChildDict = ChildDict(keys: seq<string>, entries: map<string, Node>)
  {
    ghost predicate Valid()
    {
      (forall i, j :: 0 <= i < j < |keys| ==> keys[i] != keys[j])
      && (forall k :: k in entries <==> k in keys)
    }

    /** dict.values(), in the order the keys were first inserted. */
    function Values(): (vs: seq<Node>)
      requires Valid()
      ensures |vs| == |keys|
    {
      seq(|keys|, i requires 0 <= i < |keys| => entries[keys[i]])
    }

    /** d[k] = v: a new key goes last, an existing key keeps its place. */
    function Put(k: string, v: Node): (d: ChildDict)
      requires Valid()
      ensures d.Valid() && d.entries == entries[k := v]
      ensures k in keys ==> d.keys == keys
      ensures k !in keys ==> d.keys == keys + [k]
    {
      if k in keys then ChildDict(keys, entries[k := v]) else ChildDict(keys + [k], entries[k := v])
    }
  }

  const EmptyDict := ChildDict([], map[])

  /** c in vs: Python tries each value in turn with ==, and a failing comparison raises. */
  function In(c: Node, vs: seq<Node>): (r: Result<bool>)
    ensures r == Ok(false) <==> forall i :: 0 <= i < |vs| ==> Eq(Path(vs[i]), Path(c)) == Ok(false)
  {
    if vs == [] then Ok(false)
    else match Eq(Path(vs[0]), Path(c))
      case Err(e) => Err(e)
      case Ok(true) => Ok(true)
      case Ok(false) => In(c, vs[1..])
  }

  const Duplication := HieralchyError("element number duplication")

  /** The loop of _find_children from the dict d on over the listed children cs. */
  function FindFrom(d: ChildDict, cs: seq<Node>): (r: Result<ChildDict>)
    requires d.Valid()
    ensures r.Ok? ==> r.value.Valid()
    decreases |cs|
  {
    if cs == [] then Ok(d)
    else match In(cs[0], d.Values())
      case Err(e) => Err(e)
      case Ok(true) => Err(Duplication)
      case Ok(false) => FindFrom(d.Put(Name(cs[0]), cs[0]), cs[1..])
  }

  /** _find_children over what _read_children_list returned. */
  function FindChildrenOf(cs: seq<Node>): Result<ChildDict>
  {
    FindFrom(EmptyDict, cs)
  }

  /** _find_children as the loop it is: each listed child is checked against the values
    * stored so far and then stored under its name. */
  method FindChildren(cs: seq<Node>) returns (r: Result<ChildDict>)
    ensures r == FindChildrenOf(cs)
  {
    var d := EmptyDict;
    var i := 0;
    while i < |cs|
      invariant 0 <= i <= |cs| && d.Valid()
      invariant FindFrom(d, cs[i..]) == FindChildrenOf(cs)
    {
      assert cs[i..][1..] == cs[i + 1..];
      var child := cs[i];
      var vs := d.Values();
      var found := false;
      var j := 0;
      while j < |vs|
        invariant 0 <= j <= |vs|
        invariant In(child, vs) == In(child, vs[j..])
      {
        assert vs[j..][1..] == vs[j + 1..];
        var e := Eq(Path(vs[j]), Path(child));
        if e.Err? {
          return Err(e.error);
        }
        if e.value {
          found := true;
          break;
        }
        j := j + 1;
      }
      if found {
        return Err(Duplication);
      }
      d := d.Put(Name(child), child);
      i := i + 1;
    }
    return Ok(d);
  }

  /** Siblings compare by kind and num only: their parents are one object. */
  lemma SiblingsEq(p: seq<Step>, x: Step, y: Step)
    requires |p| > 0
    ensures Eq(p + [x], p + [y]) == Ok(Agree(x, y))
  {
    EqReflexive(p);
    assert Parent(p + [x]) == p && Parent(p + [y]) == p;
  }

  function Names(cs: seq<Node>): (ns: seq<string>)
    ensures |ns| == |cs|
  {
    seq(|cs|, i requires 0 <= i < |cs| => Name(cs[i]))
  }

  /** Listed children that are pairwise unequal and have distinct names are all kept,
    * in order. */
  lemma FindChildrenDistinct(cs: seq<Node>)
    requires forall i, j :: 0 <= i < j < |cs| ==> Name(cs[i]) != Name(cs[j])
    requires forall i, j :: 0 <= i < j < |cs| ==> Eq(Path(cs[i]), Path(cs[j])) == Ok(false)
    ensures FindChildrenOf(cs).Ok? && FindChildrenOf(cs).value.Values() == cs
  {
    assert cs[0..] == cs;
    FindFromDistinct(cs, 0, EmptyDict);
  }

  lemma NotInPrefix(cs: seq<Node>, k: nat)
    requires forall i, j :: 0 <= i < j < |cs| ==> Name(cs[i]) != Name(cs[j])
    requires forall i, j :: 0 <= i < j < |cs| ==> Eq(Path(cs[i]), Path(cs[j])) == Ok(false)
    requires k < |cs|
    ensures In(cs[k], cs[..k]) == Ok(false) && Name(cs[k]) !in Names(cs[..k])
  {
    assert forall i :: 0 <= i < k ==> cs[..k][i] == cs[i];
    assert forall i :: 0 <= i < k ==> Names(cs[..k])[i] == Name(cs[i]);
  }

  lemma PutNext(cs: seq<Node>, k: nat, d: ChildDict)
    requires k < |cs| && d.Valid() && d.keys == Names(cs[..k]) && d.Values() == cs[..k]
    requires Name(cs[k]) !in Names(cs[..k])
    ensures d.Put(Name(cs[k]), cs[k]).keys == Names(cs[..k + 1])
    ensures d.Put(Name(cs[k]), cs[k]).Values() == cs[..k + 1]
  {
    assert cs[..k + 1] == cs[..k] + [cs[k]];
  }

  lemma {:induction false} FindFromDistinct(cs: seq<Node>, k: nat, d: ChildDict)
    requires forall i, j :: 0 <= i < j < |cs| ==> Name(cs[i]) != Name(cs[j])
    requires forall i, j :: 0 <= i < j < |cs| ==> Eq(Path(cs[i]), Path(cs[j])) == Ok(false)
    requires k <= |cs| && d.Valid() && d.keys == Names(cs[..k]) && d.Values() == cs[..k]
    ensures FindFrom(d, cs[k..]).Ok? && FindFrom(d, cs[k..]).value.Values() == cs
    decreases |cs| - k
  {
    if k == |cs| {
      assert cs[..k] == cs;
    } else {
      var c := cs[k];
      NotInPrefix(cs, k);
      assert In(c, d.Values()) == Ok(false);
      var d' := d.Put(Name(c), c);
      PutNext(cs, k, d);
      assert cs[k..][1..] == cs[k + 1..];
      FindFromDistinct(cs, k + 1, d');
    }
  }

  /** Every listed child that no later child shares a name with ends up stored under
    * its name; a later child of the same name replaces it. */
  lemma {:induction false} FindFromStores(d: ChildDict, cs: seq<Node>, i: nat)
    requires d.Valid() && i < |cs| && FindFrom(d, cs).Ok?
    requires forall j :: i < j < |cs| ==> Name(cs[j]) != Name(cs[i])
    ensures Name(cs[i]) in FindFrom(d, cs).value.entries
    ensures FindFrom(d, cs).value.entries[Name(cs[i])] == cs[i]
    decreases |cs|
  {
    var d' := d.Put(Name(cs[0]), cs[0]);
    assert FindFrom(d, cs) == FindFrom(d', cs[1..]);
    if i == 0 {
      FindFromKeeps(d', cs[1..], Name(cs[0]));
    } else {
      FindFromStores(d', cs[1..], i - 1);
    }
  }

  /** An entry no later child is named after survives the rest of the loop. */
  lemma {:induction false} FindFromKeeps(d: ChildDict, cs: seq<Node>, k: string)
    requires d.Valid() && k in d.entries
    requires forall i :: 0 <= i < |cs| ==> Name(cs[i]) != k
    requires FindFrom(d, cs).Ok?
    ensures k in FindFrom(d, cs).value.entries && FindFrom(d, cs).value.entries[k] == d.entries[k]
    decreases |cs|
  {
    if cs != [] {
      FindFromKeeps(d.Put(Name(cs[0]), cs[0]), cs[1..], k);
    }
  }

  /** A child equal to one still stored raises HieralchyError. */
  lemma RepeatRaises(d: ChildDict, c: Node, cs: seq<Node>)
    requires d.Valid() && In(c, d.Values()) == Ok(true)
    ensures FindFrom(d, [c] + cs) == Err(Duplication)
  {
  }

  /** One turn of the _find_children loop for a child that equals no stored value: it is
    * stored under its name and the loop goes on with the rest. */
  lemma FindFromStep(d: ChildDict, c: Node, rest: seq<Node>)
    requires d.Valid() && In(c, d.Values()) == Ok(false)
    ensures FindFrom(d, [c] + rest) == FindFrom(d.Put(Name(c), c), rest)
  {
    var cs := [c] + rest;
    assert cs[0] == c && cs[1..] == rest;
  }

  /** The dict holding a single child lists just that child. */
  lemma SingleValues(k: string, x: Node)
    ensures EmptyDict.Put(k, x).Values() == [x]
  {
    var d := ChildDict([k], map[k := x]);
    assert [] + [k] == [k];
    assert EmptyDict.Put(k, x) == d;
    assert d.Values()[0] == x;
  }

  /** A lone stored child is replaced by a listed child of its name that it does not
    * equal: the loop goes on from the dict holding only the new one. */
  lemma ReplaceSingle(k: string, x: Node, y: Node, rest: seq<Node>)
    requires Name(x) == k && Name(y) == k && Eq(Path(x), Path(y)) == Ok(false)
    ensures FindFrom(EmptyDict.Put(k, x), [y] + rest) == FindFrom(EmptyDict.Put(k, y), rest)
  {
    SingleValues(k, x);
    assert In(y, [x]) == Ok(false);
    FindFromStep(EmptyDict.Put(k, x), y, rest);
    assert EmptyDict.Put(k, x).Put(k, y) == EmptyDict.Put(k, y);
  }

  /** The first listed child goes into the empty dict. */
  lemma FirstStored(x: Node, rest: seq<Node>)
    ensures FindFrom(EmptyDict, [x] + rest) == FindFrom(EmptyDict.Put(Name(x), x), rest)
  {
    FindFromStep(EmptyDict, x, rest);
  }

  /** Siblings of one kind whose numbers differ but round to the same main_num share a
    * name and are not equal, either way round. */
  lemma SameNameDistinct(p: seq<Step>, a: Tree, b: Tree)
    requires |p| > 0 && a.kind == b.kind
    requires TreeNum(a).MainNum() == TreeNum(b).MainNum() && TreeNum(a).num != TreeNum(b).num
    ensures Name(Real(p, a)) == Name(Real(p, b))
    ensures Eq(Path(Real(p, a)), Path(Real(p, b))) == Ok(false)
    ensures Eq(Path(Real(p, b)), Path(Real(p, a))) == Ok(false)
  {
    var x, y := Real(p, a), Real(p, b);
    assert Name(x) == Name(y);
    SiblingsEq(p, Last(Path(x)), Last(Path(y)));
    SiblingsEq(p, Last(Path(y)), Last(Path(x)));
  }

  /** Two siblings of one kind whose numbers round to the same main_num share a name, so
    * the second replaces the first: 1 and 1_2 are both named 第1条 and only 1_2 remains. */
  lemma SameMainNumOverwrites(p: seq<Step>, a: Tree, b: Tree)
    requires |p| > 0 && a.kind == b.kind
    requires TreeNum(a).MainNum() == TreeNum(b).MainNum() && TreeNum(a).num != TreeNum(b).num
    ensures FindChildrenOf([Real(p, a), Real(p, b)]).Ok?
    ensures FindChildrenOf([Real(p, a), Real(p, b)]).value.Values() == [Real(p, b)]
  {
    var x, y := Real(p, a), Real(p, b);
    SameNameDistinct(p, a, b);
    var k := Name(x);
    FirstStored(x, [y]);
    ReplaceSingle(k, x, y, []);
    assert [x, y] == [x] + [y] && [y] + [] == [y];
    SingleValues(k, y);
  }

  /** After such a replacement an element equal to the first one is no longer detected:
    * listing 1, 1_2, 1 keeps the last 1 and raises nothing. */
  lemma ReplacedDuplicateMissed(p: seq<Step>, a: Tree, b: Tree)
    requires |p| > 0 && a.kind == b.kind
    requires TreeNum(a).MainNum() == TreeNum(b).MainNum() && TreeNum(a).num != TreeNum(b).num
    ensures FindChildrenOf([Real(p, a), Real(p, b), Real(p, a)]).Ok?
    ensures FindChildrenOf([Real(p, a), Real(p, b), Real(p, a)]).value.Values() == [Real(p, a)]
  {
    var x, y := Real(p, a), Real(p, b);
    SameNameDistinct(p, a, b);
    var k := Name(x);
    FirstStored(x, [y, x]);
    ReplaceSingle(k, x, y, [x]);
    ReplaceSingle(k, y, x, []);
    assert [x, y, x] == [x] + [y, x] && [y, x] == [y] + [x] && [x] == [x] + [];
    SingleValues(k, x);
  }

  // ---------------------------------------------------------------------------
  // The element object and its cached attributes
  // ---------------------------------------------------------------------------

  /** One of the attributes _num, _children, _text: still None, filled, or deleted from
    * the instance dict by delete_values (reading it then raises AttributeError). */
  datatype Slot<T> = Unset | Cached(value: T) | Deleted

  const Missing := AttributeError("attribute deleted by delete_values")

  /** Whether one of delete_values' tags removes the attribute attr: it deletes both
    * "_" + tag and tag itself. */
  predicate Removes(tags: seq<string>, attr: string)
  {
    tags != [] && (Removes(tags[..|tags| - 1], attr) || Deletes(tags[|tags| - 1], attr))
  }

  /** The tag vt deletes the attribute attr: attr is "_" + vt or vt itself. */
  predicate Deletes(vt: string, attr: string)
  {
    "_" + vt == attr || vt == attr
  }

  class TreeElement {
    /** The element as a position in the tree: its kind, its path and the tree it reads. */
    const node: Node
    /** What _read_children_list returns for this element. */
    const listed: seq<Node>
    var numSlot: Slot<ElementNumber>
    var childrenSlot: Slot<ChildDict>
    var textSlot: Slot<string>
    /** _code, absent until code is first read. */
    var codeSlot: Option<string>
    /** _is_vnode, absent until is_vnode is first read or get_virtual_node sets it. */
    var vnodeFlag: Option<bool>

    /** __init__: _num, _children and _text are None, _code and _is_vnode absent. */
    constructor (node: Node, listed: seq<Node>)
      ensures this.node == node && this.listed == listed
      ensures numSlot == Unset && childrenSlot == Unset && textSlot == Unset
      ensures codeSlot == None && vnodeFlag == None
    {
      this.node := node;
      this.listed := listed;
      numSlot, childrenSlot, textSlot := Unset, Unset, Unset;
      codeSlot, vnodeFlag := None, None;
    }

    /** What _read_num returns: the number the element's source carries, and the base
      * class's ElementNumber("1") for a virtual node, which has no source. */
    function ReadNum(): (e: ElementNumber)
    {
      if node.Real? then TreeNum(node.tree) else ElementNumber(1.0)
    }

    /** is_vnode: False unless get_virtual_node set it; the default is stored on first read. */
    method IsVnode() returns (b: bool)
      modifies this`vnodeFlag
      ensures b == old(vnodeFlag).GetOr(false)
      ensures vnodeFlag == Some(b)
    {
      if vnodeFlag.None? {
        vnodeFlag := Some(false);
      }
      b := vnodeFlag.value;
    }

    /** What reading num gives in the current state. */
    function NumNow(): Result<ElementNumber>
      reads this`vnodeFlag, this`numSlot
    {
      if vnodeFlag == Some(true) then Ok(VirtualNum)
      else match numSlot
        case Unset => Ok(ReadNum())
        case Cached(e) => Ok(e)
        case Deleted => Err(Missing)
    }

    /** num: ElementNumber("0") for a virtual node, otherwise read once and kept; the
      * same value is read again afterwards. */
    method Num() returns (r: Result<ElementNumber>)
      modifies this`numSlot, this`vnodeFlag
      ensures r == old(NumNow())
      ensures vnodeFlag == Some(old(vnodeFlag).GetOr(false))
      ensures numSlot == if r.Ok? then Cached(r.value) else Deleted
      ensures NumNow() == r
    {
      var v := IsVnode();
      if v {
        numSlot := Cached(VirtualNum);
        return Ok(VirtualNum);
      }
      match numSlot
      case Unset =>
        numSlot := Cached(ReadNum());
        r := Ok(ReadNum());
      case Cached(e) =>
        r := Ok(e);
      case Deleted =>
        r := Err(Missing);
    }

    /** children: _find_children runs on the first read and its dict is kept; when it
      * raises, nothing is stored. */
    method Children() returns (r: Result<ChildDict>)
      modifies this`childrenSlot
      ensures match old(childrenSlot)
        case Unset => r == FindChildrenOf(listed)
                      && childrenSlot == (if r.Ok? then Cached(r.value) else Unset)
        case Cached(d) => r == Ok(d) && childrenSlot == old(childrenSlot)
        case Deleted => r == Err(Missing) && childrenSlot == Deleted
    {
      match childrenSlot
      case Unset =>
        r := FindChildren(listed);
        if r.Ok? {
          childrenSlot := Cached(r.value);
        }
      case Cached(d) =>
        r := Ok(d);
      case Deleted =>
        r := Err(Missing);
    }

    /** text: _read_text normalised and stripped on the first read, then kept. */
    method Text(normalize: string -> string) returns (r: Result<string>)
      modifies this`textSlot
      ensures match old(textSlot)
        case Unset => r == Ok(TreeSearch.Text(node, normalize)) && textSlot == Cached(r.value)
        case Cached(s) => r == Ok(s) && textSlot == old(textSlot)
        case Deleted => r == Err(Missing) && textSlot == Deleted
    {
      match textSlot
      case Unset =>
        var s := TreeSearch.Text(node, normalize);
        textSlot := Cached(s);
        r := Ok(s);
      case Cached(s) =>
        r := Ok(s);
      case Deleted =>
        r := Err(Missing);
    }

    /** What reading code gives in the current state, when the parent's code is
      * parentCode. */
    function CodeNow(parentCode: string): Result<string>
      reads this`codeSlot, this`vnodeFlag, this`numSlot
    {
      if codeSlot.Some? then Ok(codeSlot.value)
      else match NumNow()
        case Ok(e) => Ok(parentCode + CodeSegment(Step(NodeKind(node), e, false)))
        case Err(err) => Err(err)
    }

    /** code: the parent's code followed by "/Kind(main_num)", computed on the first read
      * (which reads num) and then kept whatever the parent's code becomes. */
    method Code(parentCode: string) returns (r: Result<string>)
      modifies this`codeSlot, this`numSlot, this`vnodeFlag
      ensures r == old(CodeNow(parentCode))
      ensures codeSlot == if r.Ok? then Some(r.value) else None
      ensures old(codeSlot).Some? ==> numSlot == old(numSlot) && vnodeFlag == old(vnodeFlag)
      ensures forall other :: r.Ok? ==> CodeNow(other) == r
    {
      if codeSlot.Some? {
        return Ok(codeSlot.value);
      }
      var num := Num();
      if num.Err? {
        return Err(num.error);
      }
      var s := parentCode + CodeSegment(Step(NodeKind(node), num.value, false));
      codeSlot := Some(s);
      r := Ok(s);
    }

    /** delete_values: every tag deletes "_" + tag and tag from the instance dict where
      * present; a deleted _code or _is_vnode is recomputed on the next read. */
    method DeleteValues(tags: seq<string>)
      modifies this`numSlot, this`childrenSlot, this`textSlot, this`codeSlot, this`vnodeFlag
      ensures numSlot == if Removes(tags, "_num") then Deleted else old(numSlot)
      ensures childrenSlot == if Removes(tags, "_children") then Deleted else old(childrenSlot)
      ensures textSlot == if Removes(tags, "_text") then Deleted else old(textSlot)
      ensures codeSlot == if Removes(tags, "_code") then None else old(codeSlot)
      ensures vnodeFlag == if Removes(tags, "_is_vnode") then None else old(vnodeFlag)
    {
      var i := 0;
      while i < |tags|
        invariant 0 <= i <= |tags|
        invariant numSlot == if Removes(tags[..i], "_num") then Deleted else old(numSlot)
        invariant childrenSlot == if Removes(tags[..i], "_children") then Deleted else old(childrenSlot)
        invariant textSlot == if Removes(tags[..i], "_text") then Deleted else old(textSlot)
        invariant codeSlot == if Removes(tags[..i], "_code") then None else old(codeSlot)
        invariant vnodeFlag == if Removes(tags[..i], "_is_vnode") then None else old(vnodeFlag)
      {
        assert tags[..i + 1][..i] == tags[..i];
        DeleteValue(tags[i]);
        i := i + 1;
      }
      assert tags[..i] == tags;
    }

    /** The body of delete_values' loop, for the tag vt. */
    method DeleteValue(vt: string)
      modifies this`numSlot, this`childrenSlot, this`textSlot, this`codeSlot, this`vnodeFlag
      ensures numSlot == if Deletes(vt, "_num") then Deleted else old(numSlot)
      ensures childrenSlot == if Deletes(vt, "_children") then Deleted else old(childrenSlot)
      ensures textSlot == if Deletes(vt, "_text") then Deleted else old(textSlot)
      ensures codeSlot == if Deletes(vt, "_code") then None else old(codeSlot)
      ensures vnodeFlag == if Deletes(vt, "_is_vnode") then None else old(vnodeFlag)
    {
      if Deletes(vt, "_num") { numSlot := Deleted; }
      if Deletes(vt, "_children") { childrenSlot := Deleted; }
      if Deletes(vt, "_text") { textSlot := Deleted; }
      if Deletes(vt, "_code") { codeSlot := None; }
      if Deletes(vt, "_is_vnode") { vnodeFlag := None; }
    }

    /** get_virtual_node(target): a new element of the target kind below this one, marked
      * virtual, sharing this element's children (whatever _children holds now). Once
      * delete_values has removed _children, reading self._children raises AttributeError. */
    method GetVirtualNode(target: Kind) returns (r: Result<TreeElement>)
      ensures childrenSlot.Deleted? ==> r == Err(Missing)
      ensures !childrenSlot.Deleted? ==> r.Ok? && fresh(r.value)
      ensures r.Ok? ==>
                r.value.node == Virtual(target, node) && r.value.listed == listed &&
                r.value.vnodeFlag == Some(true) && r.value.childrenSlot == childrenSlot &&
                r.value.numSlot == Unset && r.value.textSlot == Unset && r.value.codeSlot == None
    {
      var v := new TreeElement(Virtual(target, node), listed);
      v.vnodeFlag := Some(true);
      if childrenSlot.Deleted? {
        return Err(Missing);
      }
      v.childrenSlot := childrenSlot;
      r := Ok(v);
    }
  }

  /** Some tag deletes the attribute. */
  lemma {:induction false} RemovesSome(tags: seq<string>, a: string)
    ensures Removes(tags, a) <==> exists i :: 0 <= i < |tags| && Deletes(tags[i], a)
    decreases |tags|
  {
    if tags != [] {
      var init := tags[..|tags| - 1];
      RemovesSome(init, a);
      if Removes(init, a) {
        var i :| 0 <= i < |init| && Deletes(init[i], a);
        assert tags[i] == init[i];
      }
      if exists i :: 0 <= i < |tags| && Deletes(tags[i], a) {
        var i :| 0 <= i < |tags| && Deletes(tags[i], a);
        if i < |init| {
          assert init[i] == tags[i];
        }
      }
    }
  }

  /** inheritance(parent, error_ok): HieralchyError unless error_ok or the parent's kind
    * is one of the child's PARENT_CANDIDATES; the child, read from tree t, sits below
    * the parent. */
  method Inheritance(parent: TreeElement, t: Tree, listed: seq<Node>, errorOk: bool) returns (r: Result<TreeElement>)
    ensures !errorOk && !IsParentCandidate(NodeKind(parent.node), t.kind) <==> r.Err?
    ensures r.Err? ==> r.error == HieralchyError("invalid hieralchy " + ClassName(NodeKind(parent.node)) + " -> " + ClassName(t.kind))
    ensures r.Ok? ==> fresh(r.value) && r.value.node == Real(Path(parent.node), t) && r.value.listed == listed
    ensures r.Ok? ==> Parent(Path(r.value.node)) == Path(parent.node) && r.value.vnodeFlag == None
  {
    if !errorOk && !IsParentCandidate(NodeKind(parent.node), t.kind) {
      return Err(HieralchyError("invalid hieralchy " + ClassName(NodeKind(parent.node)) + " -> " + ClassName(t.kind)));
    }
    var child := new TreeElement(Real(Path(parent.node), t), listed);
    r := Ok(child);
  }

  /** The delete_values postcondition for the cached attributes, in terms of the tags:
    * "num" and "_num" both delete _num, and an unrelated tag deletes nothing. */
  lemma RemovesNum(tags: seq<string>)
    ensures Removes(tags, "_num") <==> exists i :: 0 <= i < |tags| && (tags[i] == "num" || tags[i] == "_num")
  {
    forall i | 0 <= i < |tags| ensures ("_" + tags[i] == "_num") <==> tags[i] == "num" {
      if "_" + tags[i] == "_num" {
        assert tags[i] == ("_" + tags[i])[1..];
      }
    }
  }
}
