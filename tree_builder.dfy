// jstatutree/tree_builder.py: the SAX-style builder that turns start, data and end
// events into an element tree. It keeps a stack of open elements, each marked as
// included in the tree or not, and a buffer of character data.
module TreeBuilder {
  import opened Errors
  import opened Strings
  import opened Etypes
  import opened Lawdata
  import opened Elements

  /** The patterns an element's etype is matched against (re.match: at the start). */
  datatype SkipPattern =
    | UnknownPattern      // 'UNK'
    | SentencesPattern    // '(Paragraph|Item|Subitem\d?)Sentence'
    | CaptionsPattern     // '(Article|Paragraph)Caption'
    | ProvisionsPattern   // '(Main|Supple)Provision'

  predicate SubitemSentence(e: string)
  {
    StartsWith(e, "SubitemSentence") ||
    (StartsWith(e, "Subitem") && |e| > 7 && IsAsciiDigit(e[7]) && StartsWith(e[8..], "Sentence"))
  }

  predicate Matches(p: SkipPattern, etype: string)
  {
    match p
    case UnknownPattern => StartsWith(etype, "UNK")
    case SentencesPattern =>
      StartsWith(etype, "ParagraphSentence") || StartsWith(etype, "ItemSentence") || SubitemSentence(etype)
    case CaptionsPattern => StartsWith(etype, "ArticleCaption") || StartsWith(etype, "ParagraphCaption")
    case ProvisionsPattern => StartsWith(etype, "MainProvision") || StartsWith(etype, "SuppleProvision")
  }

  /** SKIP_ELEM_PATTERNS[name] */
  function SkipPatternNamed(name: string): (r: Result<SkipPattern>)
    ensures r.Ok? <==> name in {"sentences", "captions", "provisions"}
    ensures r.Err? ==> r.error == KeyError("'" + name + "'")
  {
    if name == "sentences" then Ok(SentencesPattern)
    else if name == "captions" then Ok(CaptionsPattern)
    else if name == "provisions" then Ok(ProvisionsPattern)
    else Err(KeyError("'" + name + "'"))
  }

  /** The patterns for the enabled names, in order; the first unknown name raises. */
  function Resolve(names: seq<string>): (r: Result<seq<SkipPattern>>)
    ensures r.Ok? <==> forall i :: 0 <= i < |names| ==> SkipPatternNamed(names[i]).Ok?
    ensures r.Ok? ==> |r.value| == |names| &&
                      forall i :: 0 <= i < |names| ==> SkipPatternNamed(names[i]) == Ok(r.value[i])
    ensures r.Err? ==> exists i :: 0 <= i < |names| && SkipPatternNamed(names[i]) == Err(r.error) &&
                                   forall j :: 0 <= j < i ==> SkipPatternNamed(names[j]).Ok?
  {
    if names == [] then Ok([])
    else match SkipPatternNamed(names[0])
      case Err(e) => Err(e)
      case Ok(p) =>
        match Resolve(names[1..])
        case Err(e) =>
          ghost var i :| 0 <= i < |names[1..]| && SkipPatternNamed(names[1..][i]) == Err(e) &&
                         forall j :: 0 <= j < i ==> SkipPatternNamed(names[1..][j]).Ok?;
          assert SkipPatternNamed(names[i + 1]) == Err(e);
          Err(e)
        case Ok(ps) => Ok([p] + ps)
  }

  /** The _skip_elems list: 'UNK' first, then the enabled patterns. */
  function SkipPatterns(names: seq<string>): (r: Result<seq<SkipPattern>>)
    ensures r.Ok? ==> |r.value| == |names| + 1 && r.value[0] == UnknownPattern
    ensures r.Ok? <==> Resolve(names).Ok?
  {
    match Resolve(names)
    case Err(e) => Err(e)
    case Ok(ps) => Ok([UnknownPattern] + ps)
  }

  const DefaultSkipElems: seq<string> := ["captions", "sentences", "provisions"]

  lemma DefaultSkipPatterns()
    ensures SkipPatterns(DefaultSkipElems) == Ok(DefaultSkips)
  {
    var names := DefaultSkipElems;
    assert SkipPatternNamed(names[0]) == Ok(CaptionsPattern);
    assert SkipPatternNamed(names[1]) == Ok(SentencesPattern);
    assert SkipPatternNamed(names[2]) == Ok(ProvisionsPattern);
    var r := Resolve(names);
    assert r.Ok?;
    assert r.value == [CaptionsPattern, SentencesPattern, ProvisionsPattern];
    assert [UnknownPattern] + r.value == DefaultSkips;
  }

  /** Some pattern of the list matches the etype: the loop over _skip_elems breaks. */
  predicate Skipped(skips: seq<SkipPattern>, etype: string)
  {
    exists i :: 0 <= i < |skips| && Matches(skips[i], etype)
  }

  /** The kinds whose etype a pattern matches, as a test on the kind. */
  predicate MatchesKind(p: SkipPattern, k: Kind)
  {
    match p
    case UnknownPattern => k == UnknownElement
    case SentencesPattern =>
      k == ParagraphSentence || k == ItemSentence || k == Subitem1Sentence || k == Subitem2Sentence ||
      k == Subitem3Sentence || k == Subitem4Sentence || k == Subitem5Sentence
    case CaptionsPattern => k == ArticleCaption || k == ParagraphCaption
    case ProvisionsPattern => k == MainProvision
  }

  /** The skip test of start for an element of kind k. */
  predicate SkippedKind(skips: seq<SkipPattern>, k: Kind)
  {
    exists i :: 0 <= i < |skips| && MatchesKind(skips[i], k)
  }

  /** An entry of the element stack: the element and whether it was put in the tree. */
  datatype Entry = Entry(elem: Element, included: bool)

  /** The topmost included entry, searching the stack from the top. */
  function NearestIncluded(stack: seq<Entry>): (r: Option<nat>)
    ensures r.Some? ==> r.value < |stack| && stack[r.value].included &&
                        forall j :: r.value < j < |stack| ==> !stack[j].included
    ensures r.None? <==> forall j :: 0 <= j < |stack| ==> !stack[j].included
  {
    if stack == [] then None
    else if stack[|stack| - 1].included then Some(|stack| - 1)
    else NearestIncluded(stack[..|stack| - 1])
  }

  /** Where start puts a new element. */
  datatype Placement = Excluded | Attached(at: nat) | AsRoot | NoRoot

  /** The placement start chooses for an element with this tag and kind, inMain being
    * the MainProvision flag after this start has updated it. */
  function PlacementOf(tag: string, k: Kind, inMain: bool, rootTag: string,
                       skips: seq<SkipPattern>, stack: seq<Entry>): (p: Placement)
    ensures p.Attached? ==> p.at < |stack| && stack[p.at].included
  {
    if !inMain && tag != rootTag then Excluded
    else if SkippedKind(skips, k) then Excluded
    else match NearestIncluded(stack)
      case Some(i) => Attached(i)
      case None => if tag == rootTag then AsRoot else NoRoot
  }

  function InvalidHierarchy(parent: Kind, child: Kind): Error
  {
    HieralchyError("invalid hieralchy: " + Etype(parent) + " -> " + Etype(child))
  }

  const NoRootError := GenericException("No root element in the element stack.")

  /** The entry whose children start appends to: the attachment point, when the
    * element was attached. */
  function Grown(p: Placement, r: Result<Element>, s: seq<Entry>): set<Element>
  {
    if r.Ok? && p.Attached? && p.at < |s| then {s[p.at].elem} else {}
  }

  /** The entry whose caption a successful end(tag) sets: the one below the top. */
  function Captioned(tag: string, r: Result<Element>, s: seq<Entry>): set<Element>
  {
    if r.Ok? && tag != "MainProvision" && tag != "LawNum" && tag != "LawTitle" &&
       Contains(tag, "Caption") && |s| > 1
    then {s[|s| - 2].elem} else {}
  }

  /** The entry whose title a successful end(tag) sets: the one below the top. */
  function Titled(tag: string, r: Result<Element>, s: seq<Entry>): set<Element>
  {
    if r.Ok? && tag != "MainProvision" && tag != "LawNum" && tag != "LawTitle" &&
       !Contains(tag, "Caption") && Contains(tag, "Title") && |s| > 1
    then {s[|s| - 2].elem} else {}
  }

  class Builder {
    var data: seq<string>
    var stack: seq<Entry>
    var last: Option<Element>
    var root: Option<Element>
    /** _tail: true after an end tag; None and 0 are both read as false. */
    var tail: bool
    var inMain: bool
    const lawdata: LawData
    const skips: seq<SkipPattern>
    const rootTag: string
    /** The NFKC normalisation applied by preprocess. */
    const normalize: string -> string
    /** _factory: the kind element_factory instantiates for a tag. */
    const factory: string -> Result<Kind>

    /** An included entry exists only once a root has been made, and 'UNK' is
      * always the first pattern. */
    ghost predicate Valid()
      reads this`root, this`stack
    {
      (root.None? ==> forall i :: 0 <= i < |stack| ==> !stack[i].included) &&
      |skips| > 0 && skips[0] == UnknownPattern
    }

    function LastTarget(): set<Element>
      reads this`last
    {
      if last.Some? then {last.value} else {}
    }

    /** The elements a builder event may change. */
    function Targets(): set<Element>
      reads this`stack, this`last
    {
      (set i | 0 <= i < |stack| :: stack[i].elem) + LastTarget()
    }

    constructor Init(lawdata: LawData, skips: seq<SkipPattern>, rootTag: string, normalize: string -> string)
      requires |skips| > 0 && skips[0] == UnknownPattern
      ensures Valid()
      ensures data == [] && stack == [] && last == None && root == None && !tail && !inMain
      ensures this.lawdata == lawdata && this.skips == skips && this.rootTag == rootTag
      ensures this.normalize == normalize && factory == FactoryKind
    {
      factory := FactoryKind;
      data, stack, last, root, tail, inMain := [], [], None, None, false, false;
      this.lawdata := lawdata;
      this.skips := skips;
      this.rootTag := rootTag;
      this.normalize := normalize;
    }

    /** The assertion error _flush would raise. */
    function FlushError(): Option<Error>
      reads this`data, this`last, this`tail, LastTarget()`text, LastTarget()`tail
    {
      if data != [] && last.Some? then
        if tail && last.value.tail.Some? then Some(AssertionError("internal error (tail)"))
        else if !tail && last.value.text.Some? then Some(AssertionError("internal error (text)"))
        else None
      else None
    }

    /** The element _flush writes to: the last one, when there is buffered text and
      * neither assertion fails. */
    function FlushTarget(): set<Element>
      reads this`data, this`last, this`tail, LastTarget()`text, LastTarget()`tail
    {
      if data != [] && FlushError().None? then LastTarget() else {}
    }

    /** What _flush left in e: the joined buffer d as its tail after an end and as its
      * text after a start, the other field keeping its old value. */
    ghost predicate FlushedInto(e: Element, d: seq<string>, afterEnd: bool, oldText: Option<string>, oldTail: Option<string>)
      reads e`text, e`tail
    {
      if afterEnd then e.tail == Some(Concat(d)) && e.text == oldText
      else e.text == Some(Concat(d)) && e.tail == oldTail
    }

    /** _flush: the joined buffer becomes the last element's tail after an end and its
      * text after a start; a buffer with no last element is dropped. */
    method Flush() returns (r: Result<()>)
      modifies this`data, FlushTarget()`text, FlushTarget()`tail
      ensures old(FlushError()).Some? ==> r == Err(old(FlushError()).value) && data == old(data) &&
                                          unchanged(LastTarget())
      ensures old(FlushError()).None? ==> r == Ok(()) && data == []
      ensures old(FlushError()).None? && (old(data) == [] || last.None?) ==> unchanged(LastTarget())
      ensures old(FlushTarget()) != {} ==>
                last.Some? && FlushedInto(last.value, old(data), tail, old(last.value.text), old(last.value.tail))
      ensures last.Some? ==> unchanged(last.value`tag, last.value`attrib, last.value`children,
                                       last.value`title, last.value`caption, last.value`numCache)
    {
      if data != [] {
        if last.Some? {
          var text := Concat(data);
          var e := last.value;
          if tail {
            if e.tail.Some? {
              return Err(AssertionError("internal error (tail)"));
            }
            e.tail := Some(text);
          } else {
            if e.text.Some? {
              return Err(AssertionError("internal error (text)"));
            }
            e.text := Some(text);
          }
        }
        data := [];
      }
      r := Ok(());
    }

    /** data(data): the text is normalised, stripped and buffered. */
    method Data(d: string)
      modifies this`data
      ensures data == old(data) + [Preprocess(normalize, d)]
    {
      data := data + [Preprocess(normalize, d)];
    }

    /** A new element of kind k with this tag and attrib, and no text, tail or children. */
    ghost predicate Made(e: Element, k: Kind, tag: string, attrs: map<string, string>)
      reads e`tag, e`attrib, e`children, e`text, e`tail
    {
      e.kind == k && e.tag == tag && e.attrib == attrs && e.children == [] && e.text == None && e.tail == None
    }

    /** The old children of the entry an element is attached to. */
    function ChildrenAt(p: Placement): seq<Element>
      reads this`stack, (if p.Attached? && p.at < |stack| then {stack[p.at].elem} else {})`children
    {
      if p.Attached? && p.at < |stack| then stack[p.at].elem.children else []
    }

    /** The state after start has placed elem as p says, given the stack, root, tail
      * and attachment point's children it had before: a skipped or excluded element is
      * pushed as excluded, the root and an attached element as included, an attached
      * element is appended to its parent's children, and a failure keeps the stack. */
    ghost predicate Placed(p: Placement, elem: Element, r: Result<Element>, oldStack: seq<Entry>,
                           oldRoot: Option<Element>, oldTail: bool, oldChildren: seq<Element>)
      reads this`stack, this`root, this`tail, (if p.Attached? && p.at < |oldStack| then {oldStack[p.at].elem} else {})`children
    {
      match p
      case Excluded =>
        r == Ok(elem) && stack == oldStack + [Entry(elem, false)] && root == oldRoot && !tail
      case AsRoot =>
        r == Ok(elem) && stack == oldStack + [Entry(elem, true)] && root == Some(elem) && !tail
      case NoRoot =>
        r == Err(NoRootError) && stack == oldStack && root == oldRoot && tail == oldTail
      case Attached(i) =>
        i < |oldStack| &&
        var top := oldStack[|oldStack| - 1].elem;
        if IsParentCandidate(top.kind, elem.kind) then
          r == Ok(elem) && stack == oldStack + [Entry(elem, true)] &&
          oldStack[i].elem.children == oldChildren + [elem] && root == oldRoot && !tail
        else
          r == Err(InvalidHierarchy(top.kind, elem.kind)) &&
          stack == oldStack && root == oldRoot && tail == oldTail
    }

    /** The placement start gives the element it makes for tag, once the flag has
      * been updated; a tag the factory refuses places nothing. */
    function StartPlacement(tag: string): Placement
      reads this`stack, this`inMain
    {
      if factory(tag).Ok? then PlacementOf(tag, factory(tag).value, inMain || tag == "MainProvision", rootTag, skips, stack)
      else Excluded
    }

    /** The state after start's steps following the flush, given the stack, root, tail,
      * flag, last element and attachment point's children it had before: a refused tag
      * changes nothing; otherwise the new element is the last one, a MainProvision sets
      * the flag, and the element is placed as PlacementOf says. */
    ghost predicate Opened(tag: string, attrs: map<string, string>, r: Result<Element>, oldStack: seq<Entry>,
                           oldRoot: Option<Element>, oldTail: bool, oldInMain: bool, oldLast: Option<Element>,
                           oldChildren: seq<Element>)
      reads this`stack, this`root, this`tail, this`inMain, this`last
      reads LastTarget()`tag, LastTarget()`attrib, LastTarget()`children, LastTarget()`text, LastTarget()`tail
      reads (set i | 0 <= i < |oldStack| :: oldStack[i].elem)`children
    {
      if factory(tag).Err? then
        r == Err(factory(tag).error) && stack == oldStack && root == oldRoot && last == oldLast &&
        inMain == oldInMain && tail == oldTail
      else
        last.Some? && Made(last.value, factory(tag).value, tag, attrs) &&
        inMain == (oldInMain || tag == "MainProvision") &&
        Placed(PlacementOf(tag, factory(tag).value, inMain, rootTag, skips, oldStack),
               last.value, r, oldStack, oldRoot, oldTail, oldChildren)
    }

    /** start(tag, attrs): flush, make the element, then push it excluded, attach it to
      * the nearest included entry, or make it the root, as PlacementOf says. Only the
      * flushed element's text or tail and the attachment point's children change: the
      * modifies clause frames every other field of every element. */
    method Start(tag: string, attrs: map<string, string>) returns (r: Result<Element>)
      requires Valid()
      modifies this, FlushTarget()`text, FlushTarget()`tail, (set i | 0 <= i < |stack| :: stack[i].elem)`children
      ensures Valid()
      ensures old(FlushError()).Some? ==>
                r == Err(old(FlushError()).value) && data == old(data) && stack == old(stack) &&
                root == old(root) && last == old(last) && inMain == old(inMain) && tail == old(tail)
      ensures old(FlushError()).None? ==>
                data == [] &&
                Opened(tag, attrs, r, old(stack), old(root), old(tail), old(inMain), old(last),
                       old(ChildrenAt(StartPlacement(tag))))
      ensures old(FlushError()).None? && factory(tag).Ok? ==> last.Some? && fresh(last.value)
      ensures old(FlushTarget()) != {} ==>
                old(last).Some? &&
                FlushedInto(old(last).value, old(data), old(tail), old(last.value.text), old(last.value.tail))
      ensures old(last).Some? && old(last).value !in Grown(old(StartPlacement(tag)), r, old(stack)) ==>
                unchanged(old(last).value`children)
      ensures forall i :: 0 <= i < |old(stack)| && old(stack)[i].elem !in Grown(old(StartPlacement(tag)), r, old(stack)) ==>
                unchanged(old(stack)[i].elem`children)
    {
      var f := Flush();
      if f.Err? {
        return Err(f.error);
      }
      r := Open(tag, attrs);
    }

    /** start after the flush: the element is made by the factory and placed. */
    method Open(tag: string, attrs: map<string, string>) returns (r: Result<Element>)
      requires Valid()
      modifies this`last, this`inMain, this`stack, this`root, this`tail, (set i | 0 <= i < |stack| :: stack[i].elem)`children
      ensures Valid()
      ensures Opened(tag, attrs, r, old(stack), old(root), old(tail), old(inMain), old(last),
                     old(ChildrenAt(StartPlacement(tag))))
      ensures factory(tag).Ok? ==> last.Some? && fresh(last.value)
      ensures forall i :: 0 <= i < |old(stack)| && old(stack)[i].elem !in Grown(old(StartPlacement(tag)), r, old(stack)) ==>
                unchanged(old(stack)[i].elem`children)
    {
      var k := factory(tag);
      if k.Err? {
        return Err(k.error);
      }
      var elem := new Element.Init(k.value, tag, attrs);
      r := Place(elem);
    }

    /** The second half of start: the new element becomes the last one, a
      * MainProvision sets the flag, and the element is pushed, attached or rejected as
      * PlacementOf says; an attached element must have the stack top among its parent
      * candidates. */
    method Place(elem: Element) returns (r: Result<Element>)
      requires Valid()
      requires forall i :: 0 <= i < |stack| ==> stack[i].elem != elem
      modifies this`last, this`inMain, this`stack, this`root, this`tail, (set i | 0 <= i < |stack| :: stack[i].elem)`children
      ensures Valid()
      ensures last == Some(elem) && inMain == (old(inMain) || elem.tag == "MainProvision")
      ensures var p := PlacementOf(elem.tag, elem.kind, inMain, rootTag, skips, old(stack));
              Placed(p, elem, r, old(stack), old(root), old(tail), old(ChildrenAt(p)))
      ensures forall i :: 0 <= i < |old(stack)| ==>
                unchanged(old(stack)[i].elem`tag, old(stack)[i].elem`attrib, old(stack)[i].elem`text,
                          old(stack)[i].elem`tail, old(stack)[i].elem`title, old(stack)[i].elem`caption,
                          old(stack)[i].elem`numCache)
      ensures var p := PlacementOf(elem.tag, elem.kind, inMain, rootTag, skips, old(stack));
              forall i :: 0 <= i < |old(stack)| && old(stack)[i].elem !in Grown(p, r, old(stack)) ==>
                unchanged(old(stack)[i].elem`children)
    {
      last := Some(elem);
      if elem.tag == "MainProvision" {
        inMain := true;
      }
      var p := PlacementOf(elem.tag, elem.kind, inMain, rootTag, skips, stack);
      r := Push(elem, p);
    }

    /** The element pushed excluded, made the root, attached below the entry p names
      * when the stack top is among its parent candidates, or rejected. */
    method Push(elem: Element, p: Placement) returns (r: Result<Element>)
      requires Valid()
      requires forall i :: 0 <= i < |stack| ==> stack[i].elem != elem
      requires p.Attached? ==> p.at < |stack| && stack[p.at].included
      modifies this`stack, this`root, this`tail, (set i | 0 <= i < |stack| :: stack[i].elem)`children
      ensures Valid()
      ensures Placed(p, elem, r, old(stack), old(root), old(tail), old(ChildrenAt(p)))
      ensures forall i :: 0 <= i < |old(stack)| && old(stack)[i].elem !in Grown(p, r, old(stack)) ==>
                unchanged(old(stack)[i].elem`children)
    {
      match p {
        case Excluded =>
          stack := stack + [Entry(elem, false)];
        case AsRoot =>
          stack := stack + [Entry(elem, true)];
          root := Some(elem);
        case NoRoot =>
          return Err(NoRootError);
        case Attached(i) =>
          var top := stack[|stack| - 1].elem;
          if !IsParentCandidate(top.kind, elem.kind) {
            return Err(InvalidHierarchy(top.kind, elem.kind));
          }
          var parent := stack[i].elem;
          var ok := parent.Append(Elem(elem));
          stack := stack + [Entry(elem, true)];
      }
      tail := false;
      r := Ok(elem);
    }

    /** The elements end reads or changes besides the builder: the popped entry and the
      * entry below it. */
    function TopTwo(s: seq<Entry>): set<Element>
    {
      (if |s| > 0 then {s[|s| - 1].elem} else {}) + (if |s| > 1 then {s[|s| - 2].elem} else {})
    }

    /** The entries end reads or changes, in stack order: the one below the top and
      * the top. */
    function TopEntries(s: seq<Entry>): (es: seq<Element>)
      ensures forall j :: 0 <= j < |es| ==> es[j] in TopTwo(s)
    {
      if |s| > 1 then [s[|s| - 2].elem, s[|s| - 1].elem] else if |s| == 1 then [s[0].elem] else []
    }

    /** The captions and titles of those entries. */
    function Labels(s: seq<Entry>): seq<(Option<string>, Option<string>)>
      reads TopTwo(s)`caption, TopTwo(s)`title
    {
      if |s| > 1 then
        [(s[|s| - 2].elem.caption, s[|s| - 2].elem.title), (s[|s| - 1].elem.caption, s[|s| - 1].elem.title)]
      else if |s| == 1 then [(s[0].elem.caption, s[0].elem.title)]
      else []
    }

    /** Entry e of oldStack keeps its caption and title (old), unless end(tag) sets one. */
    ghost predicate LabelKept(tag: string, r: Result<Element>, oldStack: seq<Entry>, e: Element,
                              was: (Option<string>, Option<string>))
      reads e`caption, e`title
    {
      (e.caption == was.0 || e in Captioned(tag, r, oldStack)) &&
      (e.title == was.1 || e in Titled(tag, r, oldStack))
    }

    /** After end(tag), each of those entries keeps the caption and the title it had
      * (oldLabels), except the caption or title the end sets, and the law data keeps its
      * lawnum and title (oldLawnum, oldTitle) unless the end records one of them. */
    ghost predicate Kept(tag: string, r: Result<Element>, oldStack: seq<Entry>,
                         oldLabels: seq<(Option<string>, Option<string>)>,
                         oldLawnum: Option<string>, oldTitle: Option<string>)
      reads TopTwo(oldStack)`caption, TopTwo(oldStack)`title, lawdata`lawnum, lawdata`title
    {
      var es := TopEntries(oldStack);
      |oldLabels| == |es| &&
      (|es| > 0 ==> LabelKept(tag, r, oldStack, es[0], oldLabels[0])) &&
      (|es| > 1 ==> LabelKept(tag, r, oldStack, es[1], oldLabels[1])) &&
      (!(r.Ok? && tag == "LawNum") ==> lawdata.lawnum == oldLawnum) &&
      (!(r.Ok? && tag == "LawTitle") ==> lawdata.title == oldTitle)
    }

    /** The state after end(tag) popped the top of oldStack: a mismatched tag fails;
      * MainProvision clears the flag; LawNum and LawTitle record their text in the law
      * data; a tag containing Caption or Title gives its text to the enclosing element. */
    ghost predicate Popped(tag: string, r: Result<Element>, oldStack: seq<Entry>, oldLast: Option<Element>,
                           oldInMain: bool, oldTail: bool)
      reads this`stack, this`last, this`inMain, this`tail, lawdata`lawnum, lawdata`title
      reads TopTwo(oldStack)`tag, TopTwo(oldStack)`text, TopTwo(oldStack)`caption, TopTwo(oldStack)`title
    {
      if oldStack == [] then
        r == Err(IndexError("pop from empty list")) && stack == [] && last == oldLast &&
        inMain == oldInMain && tail == oldTail
      else
        var e := oldStack[|oldStack| - 1].elem;
        stack == oldStack[..|oldStack| - 1] && last == Some(e) &&
        if e.tag != tag then
          r == Err(AssertionError("end tag mismatch (expected " + e.tag + ", got " + tag + ")")) &&
          inMain == oldInMain && tail == oldTail
        else if tag == "MainProvision" then r == Ok(e) && !inMain && tail
        else if tag == "LawNum" then r == Ok(e) && lawdata.lawnum == e.text && inMain == oldInMain && tail
        else if tag == "LawTitle" then r == Ok(e) && lawdata.title == e.text && inMain == oldInMain && tail
        else if Contains(tag, "Caption") || Contains(tag, "Title") then
          inMain == oldInMain &&
          if |oldStack| == 1 then r == Err(IndexError("list index out of range")) && tail == oldTail
          else
            var parent := oldStack[|oldStack| - 2].elem;
            r == Ok(e) && tail &&
            if Contains(tag, "Caption") then parent.caption == e.text else parent.title == e.text
        else r == Ok(e) && inMain == oldInMain && tail
    }

    /** end(tag): flush, then pop the top entry as Popped says. Only the flushed
      * element's text or tail, the caption or title of the entry below the top, and the
      * law data's lawnum or title change: the modifies clause frames every other field. */
    method End(tag: string) returns (r: Result<Element>)
      requires Valid()
      modifies this, FlushTarget()`text, FlushTarget()`tail, TopTwo(stack)`caption, TopTwo(stack)`title
      modifies lawdata`lawnum, lawdata`title
      ensures Valid()
      ensures root == old(root)
      ensures old(FlushError()).Some? ==>
                r == Err(old(FlushError()).value) && data == old(data) && stack == old(stack) &&
                last == old(last) && tail == old(tail) && inMain == old(inMain)
      ensures old(FlushError()).None? ==>
                data == [] && Popped(tag, r, old(stack), old(last), old(inMain), old(tail))
      ensures old(FlushTarget()) != {} ==>
                old(last).Some? &&
                FlushedInto(old(last).value, old(data), old(tail), old(last.value.text), old(last.value.tail))
      ensures Kept(tag, r, old(stack), old(Labels(stack)), old(lawdata.lawnum), old(lawdata.title))
    {
      var f := Flush();
      if f.Err? {
        return Err(f.error);
      }
      r := Pop(tag);
    }

    /** end after the flush. */
    method Pop(tag: string) returns (r: Result<Element>)
      requires Valid()
      modifies this`stack, this`last, this`inMain, this`tail, lawdata`lawnum, lawdata`title
      modifies TopTwo(stack)`caption, TopTwo(stack)`title
      ensures Valid()
      ensures Popped(tag, r, old(stack), old(last), old(inMain), old(tail))
      ensures Kept(tag, r, old(stack), old(Labels(stack)), old(lawdata.lawnum), old(lawdata.title))
    {
      if stack == [] {
        return Err(IndexError("pop from empty list"));
      }
      var e := stack[|stack| - 1].elem;
      stack := stack[..|stack| - 1];
      last := Some(e);
      if e.tag != tag {
        return Err(AssertionError("end tag mismatch (expected " + e.tag + ", got " + tag + ")"));
      }
      if e.tag == "MainProvision" {
        inMain := false;
      } else if e.tag == "LawNum" {
        lawdata.SetLawnum(e.text);
      } else if e.tag == "LawTitle" {
        lawdata.SetTitle(e.text);
      } else if Contains(e.tag, "Caption") {
        if stack == [] {
          return Err(IndexError("list index out of range"));
        }
        stack[|stack| - 1].elem.caption := e.text;
      } else if Contains(e.tag, "Title") {
        if stack == [] {
          return Err(IndexError("list index out of range"));
        }
        stack[|stack| - 1].elem.title := e.text;
      }
      tail := true;
      r := Ok(e);
    }

    /** close(): the root, once every element has ended. */
    method Close() returns (r: Result<Element>)
      ensures stack != [] ==> r == Err(AssertionError("missing end tags"))
      ensures stack == [] && root.None? ==> r == Err(AssertionError("missing toplevel element"))
      ensures stack == [] && root.Some? ==> r == Ok(root.value)
    {
      if stack != [] {
        return Err(AssertionError("missing end tags"));
      }
      if root.None? {
        return Err(AssertionError("missing toplevel element"));
      }
      r := Ok(root.value);
    }
  }

  /** JstatutreeBuilder(lawdata, skip_elems, root_tag): an unknown skip name raises. */
  method NewBuilder(lawdata: LawData, skipElems: seq<string>, rootTag: string, normalize: string -> string)
    returns (r: Result<Builder>)
    ensures SkipPatterns(skipElems).Err? ==> r == Err(SkipPatterns(skipElems).error)
    ensures SkipPatterns(skipElems).Ok? ==>
              r.Ok? && fresh(r.value) && r.value.Valid() && r.value.skips == SkipPatterns(skipElems).value &&
              r.value.stack == [] && r.value.root == None && r.value.data == [] && r.value.last == None &&
              r.value.lawdata == lawdata && r.value.rootTag == rootTag && !r.value.inMain &&
              r.value.factory == FactoryKind
  {
    var ps := SkipPatterns(skipElems);
    if ps.Err? {
      return Err(ps.error);
    }
    var b := new Builder.Init(lawdata, ps.value, rootTag, normalize);
    r := Ok(b);
  }

  // ---------------------------------------------------------------------------
  // What start decides
  // ---------------------------------------------------------------------------

  /** Outside a MainProvision only the root tag can enter the tree. */
  lemma OutsideMainExcluded(tag: string, k: Kind, rootTag: string, skips: seq<SkipPattern>, stack: seq<Entry>)
    requires tag != rootTag && tag != "MainProvision"
    ensures PlacementOf(tag, k, false, rootTag, skips, stack) == Excluded
  {
  }

  /** An element becomes the root exactly when it has the root tag, is not skipped, and
    * no included entry is open. */
  lemma RootPlacement(tag: string, k: Kind, inMain: bool, rootTag: string, skips: seq<SkipPattern>, stack: seq<Entry>)
    ensures PlacementOf(tag, k, inMain, rootTag, skips, stack) == AsRoot <==>
              tag == rootTag && !SkippedKind(skips, k) && forall j :: 0 <= j < |stack| ==> !stack[j].included
  {
  }

  /** A non-skipped element with no included entry below it raises, unless it is the root. */
  lemma NoRootPlacement(tag: string, k: Kind, inMain: bool, rootTag: string, skips: seq<SkipPattern>, stack: seq<Entry>)
    ensures PlacementOf(tag, k, inMain, rootTag, skips, stack) == NoRoot <==>
              inMain && tag != rootTag && !SkippedKind(skips, k) &&
              forall j :: 0 <= j < |stack| ==> !stack[j].included
  {
  }

  /** An attached element goes under the topmost included entry. */
  lemma AttachedPlacement(tag: string, k: Kind, inMain: bool, rootTag: string, skips: seq<SkipPattern>, stack: seq<Entry>)
    requires (inMain || tag == rootTag) && !SkippedKind(skips, k)
    requires exists j :: 0 <= j < |stack| && stack[j].included
    ensures PlacementOf(tag, k, inMain, rootTag, skips, stack).Attached?
    ensures var i := PlacementOf(tag, k, inMain, rootTag, skips, stack).at;
            i < |stack| && stack[i].included && forall j :: i < j < |stack| ==> !stack[j].included
  {
  }

  /** A skipped element is never attached, whatever the stack. */
  lemma SkippedExcluded(tag: string, k: Kind, inMain: bool, rootTag: string, skips: seq<SkipPattern>, stack: seq<Entry>)
    requires SkippedKind(skips, k)
    ensures PlacementOf(tag, k, inMain, rootTag, skips, stack) == Excluded
  {
  }

  /** UnknownElement is skipped by any builder's patterns. */
  lemma UnknownSkipped(skips: seq<SkipPattern>)
    requires |skips| > 0 && skips[0] == UnknownPattern
    ensures SkippedKind(skips, UnknownElement)
  {
    assert MatchesKind(skips[0], UnknownElement);
  }

  /** The default patterns, 'UNK' first. */
  const DefaultSkips: seq<SkipPattern> := [UnknownPattern, CaptionsPattern, SentencesPattern, ProvisionsPattern]

  /** The kinds the default patterns skip: UnknownElement, both captions, the
    * Paragraph, Item and Subitem sentences, and MainProvision itself. */
  lemma DefaultSkippedKinds(k: Kind)
    ensures SkippedKind(DefaultSkips, k) <==>
              k in {UnknownElement, ArticleCaption, ParagraphCaption, ParagraphSentence, ItemSentence,
                    Subitem1Sentence, Subitem2Sentence, Subitem3Sentence, Subitem4Sentence,
                    Subitem5Sentence, MainProvision}
  {
    if SkippedKind(DefaultSkips, k) {
      var i :| 0 <= i < |DefaultSkips| && MatchesKind(DefaultSkips[i], k);
    } else {
      assert !MatchesKind(DefaultSkips[0], k) && !MatchesKind(DefaultSkips[1], k);
      assert !MatchesKind(DefaultSkips[2], k) && !MatchesKind(DefaultSkips[3], k);
    }
  }

  /** The test on the kind is the regular-expression test on the etype: re.match of
    * every pattern accepts an element's etype exactly for the kinds MatchesKind lists. */
  lemma SkippedKindIsSkipped(skips: seq<SkipPattern>, k: Kind)
    ensures SkippedKind(skips, k) <==> Skipped(skips, Etype(k))
  {
    if SkippedKind(skips, k) {
      var i :| 0 <= i < |skips| && MatchesKind(skips[i], k);
      MatchesKindIsMatches(skips[i], k);
    }
    if Skipped(skips, Etype(k)) {
      var i :| 0 <= i < |skips| && Matches(skips[i], Etype(k));
      MatchesKindIsMatches(skips[i], k);
    }
  }

  /** MatchesKind(p, k) is each pattern's re.match on the etype; Agrees lists the
    * four patterns for one kind. */
  predicate Agrees(e: string, k: Kind)
  {
    (Matches(UnknownPattern, e) <==> MatchesKind(UnknownPattern, k)) &&
    (Matches(SentencesPattern, e) <==> MatchesKind(SentencesPattern, k)) &&
    (Matches(CaptionsPattern, e) <==> MatchesKind(CaptionsPattern, k)) &&
    (Matches(ProvisionsPattern, e) <==> MatchesKind(ProvisionsPattern, k))
  }

  lemma MatchesKindIsMatches(p: SkipPattern, k: Kind)
    ensures MatchesKind(p, k) <==> Matches(p, Etype(k))
  {
    EtypeAgrees(k);
  }

  /** A string differing from q at index i does not start with q. */
  lemma Mismatch(s: string, q: string, i: nat)
    requires i < |s| && i < |q| && s[i] != q[i]
    ensures !StartsWith(s, q)
  {
    if |q| <= |s| {
      assert s[..|q|][i] == s[i];
    }
  }

  /** Subitem<d>Sentence is matched by the sentences pattern alone. */
  lemma SubitemSentenceOf(d: char)
    requires IsAsciiDigit(d)
    ensures var e := "Subitem" + [d] + "Sentence";
            Matches(SentencesPattern, e) && !Matches(UnknownPattern, e) &&
            !Matches(CaptionsPattern, e) && !Matches(ProvisionsPattern, e)
  {
    var e := "Subitem" + [d] + "Sentence";
    assert e[..7] == "Subitem" && e[7] == d && e[8..] == "Sentence";
    Mismatch(e, "UNK", 0);
    Mismatch(e, "ArticleCaption", 0);
    Mismatch(e, "ParagraphCaption", 0);
    Mismatch(e, "MainProvision", 0);
    Mismatch(e, "SuppleProvision", 2);
  }

  lemma EtypeAgrees(k: Kind)
    ensures Agrees(Etype(k), k)
  {
    if k == Law || k == LawBody || k == MainProvision || k == Part {
      EtypeAgrees1(k);
    } else if k == Chapter || k == Section || k == Subsection || k == Division {
      EtypeAgrees2(k);
    } else if k == Article || k == ArticleCaption || k == Paragraph || k == ParagraphCaption {
      EtypeAgrees3(k);
    } else if k == ParagraphSentence || k == Item || k == ItemSentence || k == Subitem1 {
      EtypeAgrees4(k);
    } else if k == Subitem1Sentence || k == Subitem2 || k == Subitem2Sentence || k == Subitem3 {
      EtypeAgrees5(k);
    } else if k == Subitem3Sentence || k == Subitem4 || k == Subitem4Sentence || k == Subitem5 {
      EtypeAgrees6(k);
    } else {
      EtypeAgrees7(k);
    }
  }

  lemma EtypeAgrees1(k: Kind)
    requires k == Law || k == LawBody || k == MainProvision || k == Part
    ensures Agrees(Etype(k), k)
  {
    if k == Law {
      AgreesLaw();
    } else if k == LawBody {
      AgreesLawBody();
    } else if k == MainProvision {
      AgreesMainProvision();
    } else {
      AgreesPart();
    }
  }

  lemma EtypeAgrees2(k: Kind)
    requires k == Chapter || k == Section || k == Subsection || k == Division
    ensures Agrees(Etype(k), k)
  {
    if k == Chapter {
      AgreesChapter();
    } else if k == Section {
      AgreesSection();
    } else if k == Subsection {
      AgreesSubsection();
    } else {
      AgreesDivision();
    }
  }

  lemma EtypeAgrees3(k: Kind)
    requires k == Article || k == ArticleCaption || k == Paragraph || k == ParagraphCaption
    ensures Agrees(Etype(k), k)
  {
    if k == Article {
      AgreesArticle();
    } else if k == ArticleCaption {
      AgreesArticleCaption();
    } else if k == Paragraph {
      AgreesParagraph();
    } else {
      AgreesParagraphCaption();
    }
  }

  lemma EtypeAgrees4(k: Kind)
    requires k == ParagraphSentence || k == Item || k == ItemSentence || k == Subitem1
    ensures Agrees(Etype(k), k)
  {
    if k == ParagraphSentence {
      AgreesParagraphSentence();
    } else if k == Item {
      AgreesItem();
    } else if k == ItemSentence {
      AgreesItemSentence();
    } else {
      AgreesSubitem1();
    }
  }

  lemma EtypeAgrees5(k: Kind)
    requires k == Subitem1Sentence || k == Subitem2 || k == Subitem2Sentence || k == Subitem3
    ensures Agrees(Etype(k), k)
  {
    if k == Subitem1Sentence {
      AgreesSubitem1Sentence();
    } else if k == Subitem2 {
      AgreesSubitem2();
    } else if k == Subitem2Sentence {
      AgreesSubitem2Sentence();
    } else {
      AgreesSubitem3();
    }
  }

  lemma EtypeAgrees6(k: Kind)
    requires k == Subitem3Sentence || k == Subitem4 || k == Subitem4Sentence || k == Subitem5
    ensures Agrees(Etype(k), k)
  {
    if k == Subitem3Sentence {
      AgreesSubitem3Sentence();
    } else if k == Subitem4 {
      AgreesSubitem4();
    } else if k == Subitem4Sentence {
      AgreesSubitem4Sentence();
    } else {
      AgreesSubitem5();
    }
  }

  lemma EtypeAgrees7(k: Kind)
    requires k == Subitem5Sentence || k == Column || k == Sentence || k == UnknownElement
    ensures Agrees(Etype(k), k)
  {
    if k == Subitem5Sentence {
      AgreesSubitem5Sentence();
    } else if k == Column {
      AgreesColumn();
    } else if k == Sentence {
      AgreesSentence();
    } else {
      AgreesUnknownElement();
    }
  }

  lemma AgreesLaw()
    ensures Agrees("Law", Law)
  {
    Mismatch("Law", "UNK", 0);
  }

  lemma AgreesLawBody()
    ensures Agrees("LawBody", LawBody)
  {
    Mismatch("LawBody", "UNK", 0);
    Mismatch("LawBody", "Subitem", 0);
  }

  lemma AgreesMainProvision()
    ensures Agrees("MainProvision", MainProvision)
  {
    Mismatch("MainProvision", "UNK", 0);
    Mismatch("MainProvision", "ItemSentence", 0);
    Mismatch("MainProvision", "Subitem", 0);
  }

  lemma AgreesPart()
    ensures Agrees("Part", Part)
  {
    Mismatch("Part", "UNK", 0);
  }

  lemma AgreesChapter()
    ensures Agrees("Chapter", Chapter)
  {
    Mismatch("Chapter", "UNK", 0);
    Mismatch("Chapter", "Subitem", 0);
  }

  lemma AgreesSection()
    ensures Agrees("Section", Section)
  {
    Mismatch("Section", "UNK", 0);
    Mismatch("Section", "Subitem", 1);
  }

  lemma AgreesSubsection()
    ensures Agrees("Subsection", Subsection)
  {
    Mismatch("Subsection", "UNK", 0);
    Mismatch("Subsection", "Subitem", 3);
  }

  lemma AgreesDivision()
    ensures Agrees("Division", Division)
  {
    Mismatch("Division", "UNK", 0);
    Mismatch("Division", "Subitem", 0);
  }

  lemma AgreesArticle()
    ensures Agrees("Article", Article)
  {
    Mismatch("Article", "UNK", 0);
    Mismatch("Article", "Subitem", 0);
  }

  lemma AgreesArticleCaption()
    ensures Agrees("ArticleCaption", ArticleCaption)
  {
    Mismatch("ArticleCaption", "UNK", 0);
    Mismatch("ArticleCaption", "ItemSentence", 0);
    Mismatch("ArticleCaption", "Subitem", 0);
    Mismatch("ArticleCaption", "MainProvision", 0);
  }

  lemma AgreesParagraph()
    ensures Agrees("Paragraph", Paragraph)
  {
    Mismatch("Paragraph", "UNK", 0);
    Mismatch("Paragraph", "Subitem", 0);
  }

  lemma AgreesParagraphCaption()
    ensures Agrees("ParagraphCaption", ParagraphCaption)
  {
    Mismatch("ParagraphCaption", "UNK", 0);
    Mismatch("ParagraphCaption", "ItemSentence", 0);
    Mismatch("ParagraphCaption", "SubitemSentence", 0);
    Mismatch("ParagraphCaption", "Subitem", 0);
    Mismatch("ParagraphCaption", "ArticleCaption", 0);
    Mismatch("ParagraphCaption", "MainProvision", 0);
    Mismatch("ParagraphCaption", "SuppleProvision", 0);
  }

  lemma AgreesParagraphSentence()
    ensures Agrees("ParagraphSentence", ParagraphSentence)
  {
    Mismatch("ParagraphSentence", "UNK", 0);
    Mismatch("ParagraphSentence", "ItemSentence", 0);
    Mismatch("ParagraphSentence", "SubitemSentence", 0);
    Mismatch("ParagraphSentence", "Subitem", 0);
    Mismatch("ParagraphSentence", "ArticleCaption", 0);
    Mismatch("ParagraphSentence", "ParagraphCaption", 9);
    Mismatch("ParagraphSentence", "MainProvision", 0);
    Mismatch("ParagraphSentence", "SuppleProvision", 0);
  }

  lemma AgreesItem()
    ensures Agrees("Item", Item)
  {
    Mismatch("Item", "UNK", 0);
  }

  lemma AgreesItemSentence()
    ensures Agrees("ItemSentence", ItemSentence)
  {
    Mismatch("ItemSentence", "UNK", 0);
    Mismatch("ItemSentence", "Subitem", 0);
  }

  lemma AgreesSubitem1()
    ensures Agrees("Subitem1", Subitem1)
  {
    Mismatch("Subitem1", "UNK", 0);
  }

  lemma AgreesSubitem1Sentence()
    ensures Agrees("Subitem1Sentence", Subitem1Sentence)
  {
    SubitemSentenceOf('1');
    assert "Subitem" + ['1'] + "Sentence" == "Subitem1Sentence";
  }

  lemma AgreesSubitem2()
    ensures Agrees("Subitem2", Subitem2)
  {
    Mismatch("Subitem2", "UNK", 0);
  }

  lemma AgreesSubitem2Sentence()
    ensures Agrees("Subitem2Sentence", Subitem2Sentence)
  {
    SubitemSentenceOf('2');
    assert "Subitem" + ['2'] + "Sentence" == "Subitem2Sentence";
  }

  lemma AgreesSubitem3()
    ensures Agrees("Subitem3", Subitem3)
  {
    Mismatch("Subitem3", "UNK", 0);
  }

  lemma AgreesSubitem3Sentence()
    ensures Agrees("Subitem3Sentence", Subitem3Sentence)
  {
    SubitemSentenceOf('3');
    assert "Subitem" + ['3'] + "Sentence" == "Subitem3Sentence";
  }

  lemma AgreesSubitem4()
    ensures Agrees("Subitem4", Subitem4)
  {
    Mismatch("Subitem4", "UNK", 0);
  }

  lemma AgreesSubitem4Sentence()
    ensures Agrees("Subitem4Sentence", Subitem4Sentence)
  {
    SubitemSentenceOf('4');
    assert "Subitem" + ['4'] + "Sentence" == "Subitem4Sentence";
  }

  lemma AgreesSubitem5()
    ensures Agrees("Subitem5", Subitem5)
  {
    Mismatch("Subitem5", "UNK", 0);
  }

  lemma AgreesSubitem5Sentence()
    ensures Agrees("Subitem5Sentence", Subitem5Sentence)
  {
    SubitemSentenceOf('5');
    assert "Subitem" + ['5'] + "Sentence" == "Subitem5Sentence";
  }

  lemma AgreesColumn()
    ensures Agrees("Column", Column)
  {
    Mismatch("Column", "UNK", 0);
  }

  lemma AgreesSentence()
    ensures Agrees("Sentence", Sentence)
  {
    Mismatch("Sentence", "UNK", 0);
    Mismatch("Sentence", "Subitem", 1);
  }

  lemma AgreesUnknownElement()
    ensures Agrees("UNK", UnknownElement)
  {
    assert Matches(UnknownPattern, "UNK") by { assert "UNK"[..3] == "UNK"; }
    assert !Matches(SentencesPattern, "UNK") by { Mismatch("UNK", "Subitem", 0); }
    assert !Matches(CaptionsPattern, "UNK");
    assert !Matches(ProvisionsPattern, "UNK");
  }
}
