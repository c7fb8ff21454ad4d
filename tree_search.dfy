// The traversals of jstatutree/tree_element.py: sorted(children.values()),
// depth_first_search with its virtual nodes, depth_first_iteration and
// iter_sentences.
module TreeSearch {
  import opened Errors
  import opened Strings
  import opened Etypes
  import opened Lawdata
  import opened TreeNodes
  import opened Seqs

  // ---------------------------------------------------------------------------
  // sorted(children.values())
  // ---------------------------------------------------------------------------

  /** a < b through __lt__; sorted() treats a failing comparison as no order here.
    * Between siblings whose parent's LEVEL is below both of theirs __lt__ never fails
    * (SiblingsCompare); otherwise it can fail where sorted() would raise. */
  predicate Less(a: Node, b: Node)
  {
    Lt(Path(a), Path(b)) == Ok(true)
  }

  /** Inserts x before the first element it is less than. */
  function InsertNode(x: Node, xs: seq<Node>): (r: seq<Node>)
    ensures multiset(r) == multiset(xs) + multiset{x}
  {
    if xs == [] then [x]
    else if Less(x, xs[0]) then [x] + xs
    else
      assert xs == [xs[0]] + xs[1..];
      [xs[0]] + InsertNode(x, xs[1..])
  }

  /** sorted() as a stable insertion sort under __lt__. */
  function SortNodes(xs: seq<Node>): (r: seq<Node>)
    ensures multiset(r) == multiset(xs)
  {
    if xs == [] then []
    else
      assert xs == xs[..|xs| - 1] + [xs[|xs| - 1]];
      InsertNode(xs[|xs| - 1], SortNodes(xs[..|xs| - 1]))
  }

  /** sorted(self.children.values()). */
  function SortedChildren(n: Node): (cs: seq<Node>)
    ensures multiset(cs) == multiset(Children(n)) && |cs| == |Children(n)|
    ensures forall c :: c in cs ==> Height(Underlying(c)) < Height(Underlying(n))
  {
    var cs := SortNodes(Children(n));
    assert |cs| == |multiset(cs)| == |multiset(Children(n))| == |Children(n)|;
    assert forall c :: c in cs ==> c in multiset(Children(n));
    ChildrenAreLower(n);
    cs
  }

  /** Every child, sorted or not, is a real node; a virtual node's are its proxy's. */
  lemma {:induction false} SortedChildrenAreReal(n: Node)
    ensures forall c :: c in SortedChildren(n) ==> c in Children(n) && c.Real?
  {
    ChildrenAreReal(n);
    var cs := SortedChildren(n);
    forall c | c in cs ensures c in Children(n) {
      assert c in multiset(cs);
    }
  }

  lemma {:induction false} ChildrenAreReal(n: Node)
    ensures forall c :: c in Children(n) ==> c.Real?
  {
    if n.Virtual? {
      ChildrenAreReal(n.proxy);
    }
  }

  /** Two children of one real node of a shallower LEVEL compare without failing: by
    * num at the same LEVEL, and each less than the other at different LEVELs. */
  lemma SiblingsCompare(n: Node, a: Node, b: Node)
    requires n.Real? && a in Children(n) && b in Children(n)
    requires Level(NodeKind(n)) < Level(NodeKind(a)) && Level(NodeKind(n)) < Level(NodeKind(b))
    ensures Less(a, b) <==> (Level(NodeKind(a)) != Level(NodeKind(b)) || NodeNum(a).num < NodeNum(b).num)
  {
    var p := Path(n);
    assert Path(a) == p + [Last(Path(a))] && Path(b) == p + [Last(Path(b))];
    LtSiblings(p, Last(Path(a)), Last(Path(b)));
  }

  // ---------------------------------------------------------------------------
  // depth_first_search
  // ---------------------------------------------------------------------------

  /** The search state of the loop over the sorted children: what has been yielded,
    * and the two flags. */
  datatype ScanState = ScanState(out: seq<Node>, yielded: bool, iterated: bool)

  /** depth_first_search(target, valid_vnode) from node n. */
  function Search(n: Node, target: Kind, vv: bool): seq<Node>
    decreases Height(Underlying(n)), |SortedChildren(n)| + 1
  {
    if Level(target) == Level(NodeKind(n)) && SubLevel(target) == SubLevel(NodeKind(n)) then [n]
    else if Level(target) < Level(NodeKind(n)) then []
    else Scan(n, SortedChildren(n), target, vv, ScanState([], false, false))
  }

  /** The for loop over the remaining sorted children cs, then the test after it. */
  function Scan(n: Node, cs: seq<Node>, target: Kind, vv: bool, st: ScanState): seq<Node>
    requires forall c :: c in cs ==> Height(Underlying(c)) < Height(Underlying(n))
    decreases Height(Underlying(n)), |cs|
  {
    if cs == [] then
      if st.iterated && !st.yielded && vv then st.out + [Virtual(target, n)] else st.out
    else
      var c := cs[0];
      if Level(NodeKind(c)) < Level(target) then
        Scan(n, cs[1..], target, vv, ScanState(st.out + Search(c, target, vv), true, true))
      else if Level(NodeKind(c)) == Level(target) then
        if SubLevel(NodeKind(c)) == SubLevel(target) then
          Scan(n, cs[1..], target, vv, ScanState(st.out + [c], true, true))
        else
          Scan(n, cs[1..], target, vv, ScanState(st.out, st.yielded, true))
      else if vv then st.out + [Virtual(target, n)]
      else Scan(n, cs[1..], target, vv, ScanState(st.out + [n], true, true))
  }

  /** One turn of the loop over the sorted children, by the kind of child. */
  lemma ScanStep(n: Node, cs: seq<Node>, target: Kind, vv: bool, st: ScanState)
    requires cs != [] && forall c :: c in cs ==> Height(Underlying(c)) < Height(Underlying(n))
    ensures Level(NodeKind(cs[0])) < Level(target) ==>
      Scan(n, cs, target, vv, st) == Scan(n, cs[1..], target, vv, ScanState(st.out + Search(cs[0], target, vv), true, true))
    ensures Level(NodeKind(cs[0])) == Level(target) && SubLevel(NodeKind(cs[0])) == SubLevel(target) ==>
      Scan(n, cs, target, vv, st) == Scan(n, cs[1..], target, vv, ScanState(st.out + [cs[0]], true, true))
    ensures Skipped(cs[0], target) ==>
      Scan(n, cs, target, vv, st) == Scan(n, cs[1..], target, vv, ScanState(st.out, st.yielded, true))
    ensures Level(NodeKind(cs[0])) > Level(target) ==>
      Scan(n, cs, target, vv, st) == if vv then st.out + [Virtual(target, n)]
                                     else Scan(n, cs[1..], target, vv, ScanState(st.out + [n], true, true))
  {
  }

  /** The generator depth_first_search, collected: the flags are updated as the loop
    * over the sorted children runs, and an overshooting child ends the search with a
    * virtual node when valid_vnode is set. */
  method DepthFirstSearch(n: Node, target: Kind, vv: bool) returns (out: seq<Node>)
    ensures out == Search(n, target, vv)
    decreases Height(Underlying(n)), 2
  {
    if Level(target) == Level(NodeKind(n)) && SubLevel(target) == SubLevel(NodeKind(n)) {
      return [n];
    }
    if Level(target) < Level(NodeKind(n)) {
      return [];
    }
    out := ScanChildren(n, SortedChildren(n), target, vv);
  }

  /** The loop of depth_first_search over the sorted children cs, with the test
    * after it. */
  method ScanChildren(n: Node, cs: seq<Node>, target: Kind, vv: bool) returns (out: seq<Node>)
    requires forall c :: c in cs ==> Height(Underlying(c)) < Height(Underlying(n))
    ensures out == Scan(n, cs, target, vv, ScanState([], false, false))
    decreases Height(Underlying(n)), 1
  {
    out := [];
    var yielded, iterated := false, false;
    var i := 0;
    while i < |cs|
      invariant 0 <= i <= |cs|
      invariant Scan(n, cs[i..], target, vv, ScanState(out, yielded, iterated))
                == Scan(n, cs, target, vv, ScanState([], false, false))
    {
      var stop;
      out, yielded, stop := VisitChild(n, cs[i..], target, vv, out, yielded, iterated);
      iterated := true;
      if stop {
        return;
      }
      assert cs[i..][1..] == cs[i + 1..];
      i := i + 1;
    }
    if iterated && !yielded && vv {
      out := out + [Virtual(target, n)];
    }
  }

  /** One turn of the loop in depth_first_search, for the child cs[0]: what has been
    * yielded after it, the yielded flag, and whether the search returns. */
  method VisitChild(n: Node, cs: seq<Node>, target: Kind, vv: bool, out: seq<Node>, yielded: bool, iterated: bool)
    returns (out': seq<Node>, yielded': bool, stop: bool)
    requires cs != [] && forall c :: c in cs ==> Height(Underlying(c)) < Height(Underlying(n))
    ensures stop ==> out' == Scan(n, cs, target, vv, ScanState(out, yielded, iterated))
    ensures !stop ==> Scan(n, cs[1..], target, vv, ScanState(out', yielded', true))
                      == Scan(n, cs, target, vv, ScanState(out, yielded, iterated))
    decreases Height(Underlying(n)), 0
  {
    var c := cs[0];
    ScanStep(n, cs, target, vv, ScanState(out, yielded, iterated));
    out', yielded', stop := out, yielded, false;
    if Level(NodeKind(c)) < Level(target) {
      var sub := DepthFirstSearch(c, target, vv);
      out' := out + sub;
      yielded' := true;
    } else if Level(NodeKind(c)) == Level(target) {
      if SubLevel(NodeKind(c)) == SubLevel(target) {
        out' := out + [c];
        yielded' := true;
      }
    } else {
      yielded' := true;
      if vv {
        out' := out + [Virtual(target, n)];
        stop := true;
      } else {
        out' := out + [n];
      }
    }
  }

  /** get_virtual_node(target): a node of the target kind and num 0 whose parent is
    * the node itself and whose children are the node's own. */
  lemma VirtualNodeShape(n: Node, target: Kind)
    ensures NodeKind(Virtual(target, n)) == target && NodeNum(Virtual(target, n)).num == 0.0
    ensures Path(Virtual(target, n)) == Path(n) + [Step(target, ElementNumber(0.0), true)]
    ensures Children(Virtual(target, n)) == Children(n)
  {
  }

  /** A target of the node's own (LEVEL, SUBLEVEL) yields exactly the node. */
  lemma SearchSelf(n: Node, target: Kind, vv: bool)
    requires Key(target) == Key(NodeKind(n))
    ensures Search(n, target, vv) == [n]
  {
  }

  /** A target shallower than the node yields nothing. */
  lemma SearchShallowerTarget(n: Node, target: Kind, vv: bool)
    requires Level(target) < Level(NodeKind(n))
    ensures Search(n, target, vv) == []
  {
  }

  /** A node without children yields nothing unless it is itself of the target's
    * (LEVEL, SUBLEVEL). */
  lemma SearchChildless(n: Node, target: Kind, vv: bool)
    requires Children(n) == [] && Key(target) != Key(NodeKind(n))
    ensures Search(n, target, vv) == []
  {
    assert SortedChildren(n) == [];
  }

  /** With valid_vnode every node the search yields has the target's (LEVEL, SUBLEVEL). */
  lemma {:induction false} SearchKeys(n: Node, target: Kind)
    ensures forall m :: m in Search(n, target, true) ==> Key(NodeKind(m)) == Key(target)
    decreases Height(Underlying(n)), |SortedChildren(n)| + 1
  {
    if Key(target) != Key(NodeKind(n)) && Level(target) >= Level(NodeKind(n)) {
      ScanKeys(n, SortedChildren(n), target, ScanState([], false, false));
    }
  }

  lemma {:induction false} ScanKeys(n: Node, cs: seq<Node>, target: Kind, st: ScanState)
    requires forall c :: c in cs ==> Height(Underlying(c)) < Height(Underlying(n))
    requires forall m :: m in st.out ==> Key(NodeKind(m)) == Key(target)
    ensures forall m :: m in Scan(n, cs, target, true, st) ==> Key(NodeKind(m)) == Key(target)
    decreases Height(Underlying(n)), |cs|
  {
    if cs != [] {
      var c := cs[0];
      if Level(NodeKind(c)) < Level(target) {
        SearchKeys(c, target);
        ScanKeys(n, cs[1..], target, ScanState(st.out + Search(c, target, true), true, true));
      } else if Level(NodeKind(c)) == Level(target) {
        if SubLevel(NodeKind(c)) == SubLevel(target) {
          ScanKeys(n, cs[1..], target, ScanState(st.out + [c], true, true));
        } else {
          ScanKeys(n, cs[1..], target, ScanState(st.out, st.yielded, true));
        }
      }
    }
  }

  /** With valid_vnode, a first child deeper than the target ends the search with a
    * single virtual node of the target kind below the node. */
  lemma SearchFirstChildDeeper(n: Node, target: Kind)
    requires Key(target) != Key(NodeKind(n)) && Level(target) >= Level(NodeKind(n))
    requires SortedChildren(n) != [] && Level(NodeKind(SortedChildren(n)[0])) > Level(target)
    ensures Search(n, target, true) == [Virtual(target, n)]
  {
  }

  /** Which children a scan skips: same LEVEL as the target but another SUBLEVEL. */
  predicate Skipped(c: Node, target: Kind)
  {
    Level(NodeKind(c)) == Level(target) && SubLevel(NodeKind(c)) != SubLevel(target)
  }

  /** With valid_vnode, children that are all skipped give exactly one virtual node. */
  lemma SearchAllSkipped(n: Node, target: Kind)
    requires Key(target) != Key(NodeKind(n)) && Level(target) >= Level(NodeKind(n))
    requires Children(n) != [] && forall c :: c in Children(n) ==> Skipped(c, target)
    ensures Search(n, target, true) == [Virtual(target, n)]
  {
    var cs := SortedChildren(n);
    assert forall c :: c in cs ==> c in multiset(Children(n));
    ScanSkipped(n, cs, target, ScanState([], false, true));
  }

  lemma {:induction false} ScanSkipped(n: Node, cs: seq<Node>, target: Kind, st: ScanState)
    requires forall c :: c in cs ==> Height(Underlying(c)) < Height(Underlying(n))
    requires forall c :: c in cs ==> Skipped(c, target)
    requires st.iterated || cs != []
    ensures Scan(n, cs, target, true, st) == if st.yielded then st.out else st.out + [Virtual(target, n)]
    decreases |cs|
  {
    if cs != [] {
      assert Skipped(cs[0], target);
      ScanSkipped(n, cs[1..], target, ScanState(st.out, st.yielded, true));
    }
  }

  /** Without valid_vnode a search from a real node yields no virtual node. */
  lemma {:induction false} SearchNoVirtual(n: Node, target: Kind)
    requires n.Real?
    ensures forall m :: m in Search(n, target, false) ==> m.Real?
    decreases Height(Underlying(n)), |SortedChildren(n)| + 1
  {
    if Key(target) != Key(NodeKind(n)) && Level(target) >= Level(NodeKind(n)) {
      SortedChildrenAreReal(n);
      ScanNoVirtual(n, SortedChildren(n), target, ScanState([], false, false));
    }
  }

  lemma {:induction false} ScanNoVirtual(n: Node, cs: seq<Node>, target: Kind, st: ScanState)
    requires n.Real?
    requires forall c :: c in cs ==> Height(Underlying(c)) < Height(Underlying(n))
    requires forall c :: c in cs ==> c.Real?
    requires forall m :: m in st.out ==> m.Real?
    ensures forall m :: m in Scan(n, cs, target, false, st) ==> m.Real?
    decreases Height(Underlying(n)), |cs|
  {
    if cs != [] {
      var c := cs[0];
      if Level(NodeKind(c)) < Level(target) {
        SearchNoVirtual(c, target);
        ScanNoVirtual(n, cs[1..], target, ScanState(st.out + Search(c, target, false), true, true));
      } else if Level(NodeKind(c)) == Level(target) {
        if SubLevel(NodeKind(c)) == SubLevel(target) {
          ScanNoVirtual(n, cs[1..], target, ScanState(st.out + [c], true, true));
        } else {
          ScanNoVirtual(n, cs[1..], target, ScanState(st.out, st.yielded, true));
        }
      } else {
        ScanNoVirtual(n, cs[1..], target, ScanState(st.out + [n], true, true));
      }
    }
  }

  /** Without valid_vnode, children that all overshoot the target yield the node once
    * per child. */
  lemma SearchOvershoot(n: Node, target: Kind)
    requires Key(target) != Key(NodeKind(n)) && Level(target) >= Level(NodeKind(n))
    requires forall c :: c in Children(n) ==> Level(NodeKind(c)) > Level(target)
    ensures Search(n, target, false) == seq(|Children(n)|, _ => n)
  {
    var cs := SortedChildren(n);
    if cs != [] {
      assert forall c :: c in cs ==> c in multiset(Children(n));
      ScanOvershoot(n, cs, target, ScanState([], false, false));
    }
  }

  lemma {:induction false} ScanOvershoot(n: Node, cs: seq<Node>, target: Kind, st: ScanState)
    requires forall c :: c in cs ==> Height(Underlying(c)) < Height(Underlying(n))
    requires forall c :: c in cs ==> Level(NodeKind(c)) > Level(target)
    requires cs != [] || st.yielded
    ensures Scan(n, cs, target, false, st) == st.out + seq(|cs|, _ => n)
    decreases |cs|
  {
    if cs == [] {
      assert st.out + seq(0, _ => n) == st.out;
    } else {
      assert Level(NodeKind(cs[0])) > Level(target);
      ScanOvershoot(n, cs[1..], target, ScanState(st.out + [n], true, true));
      assert st.out + [n] + seq(|cs| - 1, _ => n) == st.out + seq(|cs|, _ => n);
    }
  }

  // ---------------------------------------------------------------------------
  // depth_first_iteration and iter_sentences
  // ---------------------------------------------------------------------------

  /** depth_first_iteration: the node, then each sorted child's iteration. */
  function Iteration(n: Node): seq<Node>
    decreases Height(Underlying(n)), 1
  {
    [n] + IterationOf(n, SortedChildren(n))
  }

  function IterationOf(n: Node, cs: seq<Node>): seq<Node>
    requires forall c :: c in cs ==> Height(Underlying(c)) < Height(Underlying(n))
    decreases Height(Underlying(n)), 0, |cs|
  {
    if cs == [] then []
    else
      Iteration(cs[0]) + IterationOf(n, cs[1..])
  }

  /** Every node of the subtree in dict order: the reference the iteration is
    * measured against. */
  function Subtree(n: Node): seq<Node>
    decreases Height(Underlying(n)), 1
  {
    ChildrenAreLower(n);
    [n] + SubtreeOf(n, Children(n))
  }

  function SubtreeOf(n: Node, cs: seq<Node>): seq<Node>
    requires forall c :: c in cs ==> Height(Underlying(c)) < Height(Underlying(n))
    decreases Height(Underlying(n)), 0, |cs|
  {
    if cs == [] then []
    else
      Subtree(cs[0]) + SubtreeOf(n, cs[1..])
  }

  /** The iteration visits the nodes of the subtree, each exactly as often as the
    * subtree holds it. */
  lemma {:induction false} IterationCoversSubtree(n: Node)
    ensures multiset(Iteration(n)) == multiset(Subtree(n))
    decreases Height(Underlying(n)), 1
  {
    ChildrenAreLower(n);
    var cs := SortedChildren(n);
    IterationOfMultiset(n, cs);
    SubtreeOfIsFlatMap(n, cs);
    SubtreeOfIsFlatMap(n, Children(n));
    FlatMapPermutation(cs, Children(n), Subtree);
  }

  /** The multiset of an iteration over cs is the sum of the subtrees of cs. */
  lemma {:induction false} IterationOfMultiset(n: Node, cs: seq<Node>)
    requires forall c :: c in cs ==> Height(Underlying(c)) < Height(Underlying(n))
    ensures multiset(IterationOf(n, cs)) == multiset(SubtreeOf(n, cs))
    decreases Height(Underlying(n)), 0, |cs|
  {
    if cs != [] {
      IterationCoversSubtree(cs[0]);
      IterationOfMultiset(n, cs[1..]);
    }
  }

  /** The subtrees of cs, concatenated. */
  lemma {:induction false} SubtreeOfIsFlatMap(n: Node, cs: seq<Node>)
    requires forall c :: c in cs ==> Height(Underlying(c)) < Height(Underlying(n))
    ensures SubtreeOf(n, cs) == FlatMap(cs, Subtree)
    decreases |cs|
  {
    if cs != [] {
      SubtreeOfIsFlatMap(n, cs[1..]);
    }
  }

  /** The text property: NFKC normalisation (a parameter) and strip() of what
    * _read_text returns; a virtual node reads the empty string. */
  function Text(n: Node, normalize: string -> string): string
  {
    match n
    case Real(_, t) => Preprocess(normalize, t.rawText)
    case Virtual(_, _) => Preprocess(normalize, "")
  }

  /** iter_sentences: the texts of the Sentence nodes, in iteration order. */
  function SentenceTexts(ns: seq<Node>, normalize: string -> string): (r: seq<string>)
    ensures |r| <= |ns|
  {
    if ns == [] then []
    else (if NodeKind(ns[0]) == Sentence then [Text(ns[0], normalize)] else [])
         + SentenceTexts(ns[1..], normalize)
  }

  function IterSentences(n: Node, normalize: string -> string): seq<string>
  {
    SentenceTexts(Iteration(n), normalize)
  }

  /** A subtree without Sentence nodes yields no sentence texts, and a sentence with no
    * children yields just its own text. */
  lemma {:induction false} IterSentencesShape(n: Node, normalize: string -> string)
    ensures (forall m :: m in Subtree(n) ==> NodeKind(m) != Sentence) ==> IterSentences(n, normalize) == []
    ensures NodeKind(n) == Sentence && Children(n) == [] ==> IterSentences(n, normalize) == [Text(n, normalize)]
  {
    if forall m :: m in Subtree(n) ==> NodeKind(m) != Sentence {
      IterSentencesNone(n, normalize);
    }
    if NodeKind(n) == Sentence && Children(n) == [] {
      IterSentencesLeaf(n, normalize);
    }
  }

  lemma {:induction false} IterSentencesNone(n: Node, normalize: string -> string)
    requires forall m :: m in Subtree(n) ==> NodeKind(m) != Sentence
    ensures IterSentences(n, normalize) == []
  {
    IterationCoversSubtree(n);
    assert forall m :: m in Iteration(n) ==> m in multiset(Subtree(n));
    NoSentenceTexts(Iteration(n), normalize);
  }

  lemma {:induction false} IterSentencesLeaf(n: Node, normalize: string -> string)
    requires NodeKind(n) == Sentence && Children(n) == []
    ensures IterSentences(n, normalize) == [Text(n, normalize)]
  {
    assert SortedChildren(n) == [];
    assert Iteration(n) == [n];
    assert SentenceTexts([n], normalize) == [Text(n, normalize)] + SentenceTexts([], normalize);
  }

  lemma {:induction false} NoSentenceTexts(ns: seq<Node>, normalize: string -> string)
    requires forall m :: m in ns ==> NodeKind(m) != Sentence
    ensures SentenceTexts(ns, normalize) == []
    decreases |ns|
  {
    if ns != [] {
      assert ns[0] in ns;
      NoSentenceTexts(ns[1..], normalize);
    }
  }
}
