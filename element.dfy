// jstatutree/element.py: the ElementTree-style node the builder assembles. Its
// children live in a list that the list operations change in place; iter and
// itertext are recursive generators, modelled here on a value snapshot of the tree.
module Elements {
  import opened Errors
  import opened Strings
  import opened Etypes
  import opened Lawdata

  /** A value passed where an Element is expected; anything else is named by its type. */
  datatype Value = Elem(e: Element) | Other(typeName: string)

  /** The attrib argument of the constructor: a dict, or a value of another type. */
  datatype AttribArg = DictArg(m: map<string, string>) | NotDict(typeName: string)

  function NotElement(v: Value): Error
    requires v.Other?
  {
    TypeError("expected an Element, not " + v.typeName)
  }

  /** A Python list index made non-negative: a negative index counts from the end. */
  function Normalized(index: int, len: nat): int
  {
    if index < 0 then index + len else index
  }

  /** The position list.insert uses: clamped into 0..len after normalising. */
  function InsertPosition(index: int, len: nat): (p: nat)
    ensures p <= len
    ensures 0 <= index <= len ==> p == index
    ensures -(len as int) <= index < 0 ==> p == index + len
  {
    var i := Normalized(index, len);
    if i < 0 then 0 else if i > len then len else i
  }

  const IndexOutOfRange := IndexError("list index out of range")
  const AssignmentOutOfRange := IndexError("list assignment index out of range")
  const NotInList := ValueError("list.remove(x): x not in list")

  /** The first position holding exactly this object (Element has no __eq__, so == is
    * identity). */
  function FirstIndexOf(xs: seq<Element>, e: Element): (r: Option<nat>)
    ensures r.None? <==> e !in xs
    ensures r.Some? ==> r.value < |xs| && xs[r.value] == e && e !in xs[..r.value]
  {
    if xs == [] then None
    else if xs[0] == e then Some(0)
    else match FirstIndexOf(xs[1..], e)
      case None => None
      case Some(i) =>
        assert xs[..i + 1] == [xs[0]] + xs[1..][..i];
        Some(i + 1)
  }

  class Element {
    /** The element's class in the kind table. */
    const kind: Kind
    var tag: string
    var attrib: map<string, string>
    var text: Option<string>
    var tail: Option<string>
    var children: seq<Element>
    /** title and caption start as "" and take the text of a closing Title or Caption
      * child, which may be None. */
    var title: Option<string>
    var caption: Option<string>
    /** _num, None until num parses a Num attribute. */
    var numCache: Option<ElementNumber>

    constructor Init(kind: Kind, tag: string, attrib: map<string, string>)
      ensures this.kind == kind && this.tag == tag && this.attrib == attrib
      ensures text == None && tail == None && children == []
      ensures title == Some("") && caption == Some("") && numCache == None
    {
      this.kind := kind;
      this.tag := tag;
      this.attrib := attrib;
      text, tail, children := None, None, [];
      title, caption, numCache := Some(""), Some(""), None;
    }

    /** len(self) */
    function Len(): nat
      reads this
    {
      |children|
    }

    /** self[index] */
    method GetItem(index: int) returns (r: Result<Element>)
      ensures var i := Normalized(index, |children|);
        if 0 <= i < |children| then r == Ok(children[i]) else r == Err(IndexOutOfRange)
    {
      var i := Normalized(index, |children|);
      if 0 <= i < |children| {
        r := Ok(children[i]);
      } else {
        r := Err(IndexOutOfRange);
      }
    }

    /** self[index] = element: a type check, then list item assignment. */
    method SetItem(index: int, v: Value) returns (r: Result<()>)
      modifies this`children
      ensures v.Other? ==> r == Err(NotElement(v)) && children == old(children)
      ensures v.Elem? && !(0 <= Normalized(index, |old(children)|) < |old(children)|) ==>
        r == Err(AssignmentOutOfRange) && children == old(children)
      ensures v.Elem? && 0 <= Normalized(index, |old(children)|) < |old(children)| ==>
        r == Ok(()) && children == old(children)[Normalized(index, |old(children)|) := v.e]
    {
      if v.Other? {
        return Err(NotElement(v));
      }
      var i := Normalized(index, |children|);
      if !(0 <= i < |children|) {
        return Err(AssignmentOutOfRange);
      }
      children := children[i := v.e];
      r := Ok(());
    }

    /** del self[index] */
    method DelItem(index: int) returns (r: Result<()>)
      modifies this`children
      ensures var i := Normalized(index, |old(children)|);
        if 0 <= i < |old(children)| then r == Ok(()) && children == old(children)[..i] + old(children)[i + 1..]
        else r == Err(AssignmentOutOfRange) && children == old(children)
    {
      var i := Normalized(index, |children|);
      if !(0 <= i < |children|) {
        return Err(AssignmentOutOfRange);
      }
      children := children[..i] + children[i + 1..];
      r := Ok(());
    }

    /** append(subelement): the child goes last. */
    method Append(v: Value) returns (r: Result<()>)
      modifies this`children
      ensures v.Other? ==> r == Err(NotElement(v)) && children == old(children)
      ensures v.Elem? ==> r == Ok(()) && children == old(children) + [v.e]
    {
      if v.Other? {
        return Err(NotElement(v));
      }
      children := children + [v.e];
      r := Ok(());
    }

    /** extend(elements): every item is checked before any is added. */
    method Extend(vs: seq<Value>) returns (r: Result<()>)
      modifies this`children
      ensures (exists i :: 0 <= i < |vs| && vs[i].Other?) <==> r.Err?
      ensures r.Err? ==> r.error.TypeError? && children == old(children)
      ensures r.Ok? ==> children == old(children) + seq(|vs|, i requires 0 <= i < |vs| => vs[i].e)
    {
      var i := 0;
      while i < |vs|
        invariant 0 <= i <= |vs|
        invariant forall j :: 0 <= j < i ==> vs[j].Elem?
      {
        if vs[i].Other? {
          return Err(NotElement(vs[i]));
        }
        i := i + 1;
      }
      children := children + seq(|vs|, i requires 0 <= i < |vs| => vs[i].e);
      r := Ok(());
    }

    /** insert(index, subelement) with list.insert's clamping of the index. */
    method Insert(index: int, v: Value) returns (r: Result<()>)
      modifies this`children
      ensures v.Other? ==> r == Err(NotElement(v)) && children == old(children)
      ensures v.Elem? ==> r == Ok(()) &&
                          var p := InsertPosition(index, |old(children)|);
                          children == old(children)[..p] + [v.e] + old(children)[p..]
    {
      if v.Other? {
        return Err(NotElement(v));
      }
      var p := InsertPosition(index, |children|);
      children := children[..p] + [v.e] + children[p..];
      r := Ok(());
    }

    /** remove(subelement): the first occurrence goes; ValueError when there is none. */
    method Remove(e: Element) returns (r: Result<()>)
      modifies this`children
      ensures e !in old(children) <==> r.Err?
      ensures r.Err? ==> r == Err(NotInList) && children == old(children)
      ensures r.Ok? ==> exists i :: (0 <= i < |old(children)| && old(children)[i] == e &&
        e !in old(children)[..i] && children == old(children)[..i] + old(children)[i + 1..])
    {
      var i := 0;
      while i < |children|
        invariant 0 <= i <= |children|
        invariant e !in children[..i]
      {
        if children[i] == e {
          children := children[..i] + children[i + 1..];
          return Ok(());
        }
        assert children[..i + 1] == children[..i] + [children[i]];
        i := i + 1;
      }
      assert children[..i] == children;
      r := Err(NotInList);
    }

    /** clear(): attrib and children emptied, text and tail None. */
    method Clear()
      modifies this`attrib, this`children, this`text, this`tail
      ensures attrib == map[] && children == [] && text == None && tail == None
    {
      attrib := map[];
      children := [];
      text, tail := None, None;
    }

    /** get(key, default) */
    function Get(key: string, default: Option<string>): (r: Option<string>)
      reads this
      ensures key in attrib ==> r == Some(attrib[key])
      ensures key !in attrib ==> r == default
    {
      if key in attrib then Some(attrib[key]) else default
    }

    /** set(key, value): a later get of the key yields the value, other keys keep theirs. */
    method Set(key: string, value: string)
      modifies this`attrib
      ensures attrib == old(attrib)[key := value]
      ensures Get(key, None) == Some(value)
      ensures forall k :: k != key ==> Get(k, None) == old(Get(k, None))
    {
      attrib := attrib[key := value];
    }

    /** num: the Num attribute parsed (and kept) when there is one, else the kept
      * number, else ElementNumber(1). */
    method Num() returns (r: Result<ElementNumber>)
      modifies this`numCache
      ensures "Num" in attrib ==>
        NewElementNumber(StrArg(attrib["Num"])).Err? ==> r == NewElementNumber(StrArg(attrib["Num"])) && numCache == old(numCache)
      ensures "Num" in attrib ==>
        NewElementNumber(StrArg(attrib["Num"])).Ok? ==> r == NewElementNumber(StrArg(attrib["Num"])) && numCache == Some(r.value)
      ensures "Num" !in attrib ==> r == Ok(numCache.GetOr(ElementNumber(1.0))) && numCache == old(numCache)
    {
      if "Num" in attrib {
        var n := NewElementNumber(StrArg(attrib["Num"]));
        if n.Err? {
          return n;
        }
        numCache := Some(n.value);
      }
      r := Ok(numCache.GetOr(ElementNumber(1.0)));
    }

    /** copy(): a new element from element_factory(tag, tag, attrib) with this one's
      * text, tail and children; an empty tag makes element_factory fail. */
    method Copy() returns (r: Result<Element>)
      ensures FactoryKind(tag).Err? ==> r == Err(FactoryKind(tag).error)
      ensures FactoryKind(tag).Ok? ==> r.Ok? && fresh(r.value)
      ensures r.Ok? ==> (r.value.kind == FactoryKind(tag).value && r.value.tag == tag &&
        r.value.attrib == attrib && r.value.text == text && r.value.tail == tail &&
        r.value.children == children && r.value.numCache == None &&
        r.value.title == Some("") && r.value.caption == Some(""))
    {
      var k := FactoryKind(tag);
      if k.Err? {
        return Err(k.error);
      }
      var c := new Element.Init(k.value, tag, attrib);
      c.text := text;
      c.tail := tail;
      c.children := children;
      r := Ok(c);
    }
  }

  /** Element(tag, attrib, **extra): attrib must be a dict; the element keeps a copy
    * updated with the keywords, so the keywords win over the dict. */
  method New(kind: Kind, tag: string, attrib: AttribArg, extra: map<string, string>) returns (r: Result<Element>)
    ensures attrib.NotDict? ==> r == Err(TypeError("attrib must be dict, not " + attrib.typeName))
    ensures attrib.DictArg? ==> r.Ok? && fresh(r.value)
    ensures r.Ok? ==> r.value.kind == kind && r.value.tag == tag && r.value.attrib == attrib.m + extra
    ensures r.Ok? ==> r.value.children == [] && r.value.title == Some("") && r.value.caption == Some("")
    ensures r.Ok? ==> r.value.text == None && r.value.tail == None && r.value.numCache == None
  {
    if attrib.NotDict? {
      return Err(TypeError("attrib must be dict, not " + attrib.typeName));
    }
    var e := new Element.Init(kind, tag, attrib.m + extra);
    r := Ok(e);
  }

  /** The keywords override the dict and every other key keeps its value. */
  lemma MergedAttrib(m: map<string, string>, extra: map<string, string>)
    ensures forall k :: k in extra ==> (m + extra)[k] == extra[k]
    ensures forall k :: k in m && k !in extra ==> (m + extra)[k] == m[k]
    ensures (m + extra).Keys == m.Keys + extra.Keys
  {
  }

  // ---------------------------------------------------------------------------
  // iter, itertext and is_deleted, on a snapshot of the element tree
  // ---------------------------------------------------------------------------

  /** An element's tag, text, tail and children, read at one moment. */
  datatype ETree = ETree(tag: string, text: Option<string>, tail: Option<string>, children: seq<ETree>)

  /** iter(tag): preorder, self first when tag is None, "*" or self's tag. */
  function Iter(t: ETree, tag: Option<string>): seq<ETree>
  {
    var tg := if tag == Some("*") then None else tag;
    (if tg.None? || t.tag == tg.value then [t] else []) + IterAll(t.children, tg)
  }

  function IterAll(ts: seq<ETree>, tag: Option<string>): seq<ETree>
  {
    if ts == [] then [] else Iter(ts[0], tag) + IterAll(ts[1..], tag)
  }

  /** Every element of the subtree, in preorder: the reference iter is measured against. */
  function Preorder(t: ETree): (r: seq<ETree>)
    ensures |r| > 0 && r[0] == t
  {
    [t] + PreorderAll(t.children)
  }

  function PreorderAll(ts: seq<ETree>): seq<ETree>
  {
    if ts == [] then [] else Preorder(ts[0]) + PreorderAll(ts[1..])
  }

  function Tagged(ts: seq<ETree>, tag: string): (r: seq<ETree>)
    ensures forall u :: u in r ==> u in ts && u.tag == tag
  {
    if ts == [] then [] else (if ts[0].tag == tag then [ts[0]] else []) + Tagged(ts[1..], tag)
  }

  lemma {:induction false} TaggedAppend(a: seq<ETree>, b: seq<ETree>, tag: string)
    ensures Tagged(a + b, tag) == Tagged(a, tag) + Tagged(b, tag)
  {
    if a != [] {
      var h := if a[0].tag == tag then [a[0]] else [];
      assert (a + b)[0] == a[0] && (a + b)[1..] == a[1..] + b;
      assert Tagged(a + b, tag) == h + Tagged(a[1..] + b, tag);
      assert Tagged(a, tag) == h + Tagged(a[1..], tag);
      TaggedAppend(a[1..], b, tag);
    } else {
      assert a + b == b;
    }
  }

  /** iter() and iter("*") yield the whole subtree in preorder, and iter(tag) yields
    * exactly those elements of it with that tag, in the same order. */
  lemma {:induction false} IterIsPreorder(t: ETree, tag: Option<string>)
    ensures tag.None? || tag == Some("*") ==> Iter(t, tag) == Preorder(t)
    ensures tag.Some? && tag != Some("*") ==> Iter(t, tag) == Tagged(Preorder(t), tag.value)
  {
    IterAllIsPreorder(t.children, tag);
    if tag.Some? && tag != Some("*") {
      TaggedAppend([t], PreorderAll(t.children), tag.value);
    }
  }

  lemma {:induction false} IterAllIsPreorder(ts: seq<ETree>, tag: Option<string>)
    ensures tag.None? || tag == Some("*") ==> IterAll(ts, None) == PreorderAll(ts)
    ensures tag.Some? && tag != Some("*") ==> IterAll(ts, tag) == Tagged(PreorderAll(ts), tag.value)
    decreases ts, 1
  {
    if ts != [] {
      IterNone(ts[0]);
      IterIsPreorder(ts[0], tag);
      IterAllIsPreorder(ts[1..], tag);
      if tag.Some? && tag != Some("*") {
        TaggedAppend(Preorder(ts[0]), PreorderAll(ts[1..]), tag.value);
      }
    }
  }

  lemma {:induction false} IterNone(t: ETree)
    ensures Iter(t, None) == Preorder(t)
    decreases t, 0
  {
    IterAllIsPreorder(t.children, None);
  }

  /** A text that counts: present and non-empty. */
  function Nonempty(t: Option<string>): seq<string>
  {
    if t.Some? && t.value != "" then [t.value] else []
  }

  /** itertext: own text, then for each child its itertext and its tail. */
  function IterText(t: ETree): (r: seq<string>)
    ensures forall s :: s in r ==> s != ""
  {
    Nonempty(t.text) + IterTextAll(t.children)
  }

  function IterTextAll(ts: seq<ETree>): (r: seq<string>)
    ensures forall s :: s in r ==> s != ""
  {
    if ts == [] then [] else IterText(ts[0]) + Nonempty(ts[0].tail) + IterTextAll(ts[1..])
  }

  /** The text content of a subtree: own text, then each child's content and tail, with
    * a missing text read as "". */
  function Content(t: ETree): string
  {
    t.text.GetOr("") + ContentAll(t.children)
  }

  function ContentAll(ts: seq<ETree>): string
  {
    if ts == [] then "" else Content(ts[0]) + ts[0].tail.GetOr("") + ContentAll(ts[1..])
  }

  /** is_deleted */
  predicate IsDeleted(t: ETree)
  {
    Concat(IterText(t)) == "削除"
  }

  lemma ConcatAppend(a: seq<string>, b: seq<string>)
    ensures Concat(a + b) == Concat(a) + Concat(b)
  {
    if a != [] {
      assert (a + b)[0] == a[0] && (a + b)[1..] == a[1..] + b;
      ConcatAppend(a[1..], b);
    } else {
      assert a + b == b;
    }
  }

  lemma NonemptyConcat(t: Option<string>)
    ensures Concat(Nonempty(t)) == t.GetOr("")
  {
  }

  /** Joining what itertext yields gives the text content; so is_deleted holds exactly
    * when the content is 削除. */
  lemma {:induction false} IterTextIsContent(t: ETree)
    ensures Concat(IterText(t)) == Content(t)
    ensures IsDeleted(t) <==> Content(t) == "削除"
    decreases t, 1
  {
    ConcatAppend(Nonempty(t.text), IterTextAll(t.children));
    NonemptyConcat(t.text);
    IterTextAllIsContent(t.children);
  }

  lemma {:induction false} IterTextAllIsContent(ts: seq<ETree>)
    ensures Concat(IterTextAll(ts)) == ContentAll(ts)
    decreases ts, 0
  {
    if ts != [] {
      IterTextIsContent(ts[0]);
      IterTextAllIsContent(ts[1..]);
      NonemptyConcat(ts[0].tail);
      ConcatAppend(IterText(ts[0]) + Nonempty(ts[0].tail), IterTextAll(ts[1..]));
      ConcatAppend(IterText(ts[0]), Nonempty(ts[0].tail));
    }
  }
}
