// The values behind a TreeElement of jstatutree/tree_element.py: what a node's
// readers supply, the path from the root that __eq__, __lt__, code and __str__
// walk, and the virtual nodes that depth_first_search synthesises.
module TreeNodes {
  import opened Errors
  import opened Strings
  import opened Etypes
  import opened Lawdata

  /** What the readers of one element supply: its kind (its class), the number that
    * _read_num returns (None for the base class, which reads ElementNumber("1")), the
    * raw text that _read_text returns, and the values of its children dict in dict
    * order. */
  datatype Tree = Tree(kind: Kind, readNum: Option<ElementNumber>, rawText: string, children: seq<Tree>)

  /** One element on the path from the root: its kind, the num it reports, and
    * whether it is a virtual node. */
  datatype Step = Step(kind: Kind, num: ElementNumber, virtual: bool)

  /** An element: a real one, reached from the root through its ancestors, or a
    * virtual node of a target kind whose parent is its proxy. */
  datatype Node =
    | Real(ancestors: seq<Step>, tree: Tree)
    | Virtual(target: Kind, proxy: Node)

  /** ElementNumber("0"), the num of every virtual node. */
  const VirtualNum := ElementNumber(0.0)

  /** The num a real element reports: what _read_num returns, ElementNumber("1") by default. */
  function TreeNum(t: Tree): (e: ElementNumber)
    ensures t.readNum.None? ==> e.num == 1.0
  {
    t.readNum.GetOr(ElementNumber(1.0))
  }

  function NodeKind(n: Node): Kind
  {
    match n
    case Real(_, t) => t.kind
    case Virtual(k, _) => k
  }

  /** The num property: 0 for a virtual node, the read number otherwise. */
  function NodeNum(n: Node): (e: ElementNumber)
    ensures n.Virtual? ==> e.num == 0.0
  {
    match n
    case Real(_, t) => TreeNum(t)
    case Virtual(_, _) => VirtualNum
  }

  /** The steps from the root down to the node itself. */
  function Path(n: Node): (p: seq<Step>)
    ensures |p| > 0 && p[|p| - 1] == Step(NodeKind(n), NodeNum(n), n.Virtual?)
  {
    match n
    case Real(anc, t) => anc + [Step(t.kind, TreeNum(t), false)]
    case Virtual(k, proxy) => Path(proxy) + [Step(k, VirtualNum, true)]
  }

  /** The tree whose children the node iterates: a virtual node shares its proxy's. */
  function Underlying(n: Node): Tree
  {
    match n
    case Real(_, t) => t
    case Virtual(_, proxy) => Underlying(proxy)
  }

  /** children.values(): the children of a virtual node are those of its proxy, whose
    * parent is the proxy. */
  function Children(n: Node): (cs: seq<Node>)
    ensures |cs| == |Underlying(n).children|
  {
    match n
    case Real(_, t) =>
      seq(|t.children|, i requires 0 <= i < |t.children| => Real(Path(n), t.children[i]))
    case Virtual(_, proxy) => Children(proxy)
  }

  function Max(a: nat, b: nat): nat
  {
    if a < b then b else a
  }

  function MaxOf(hs: seq<nat>): (m: nat)
    ensures forall i :: 0 <= i < |hs| ==> hs[i] <= m
  {
    if hs == [] then 0 else Max(hs[0], MaxOf(hs[1..]))
  }

  /** The height of a tree, which every traversal decreases by. */
  function Height(t: Tree): nat
  {
    1 + MaxOf(seq(|t.children|, i requires 0 <= i < |t.children| => Height(t.children[i])))
  }

  /** Every child of a node is a lower tree than the node's own. */
  lemma {:induction false} ChildrenAreLower(n: Node)
    ensures forall c :: c in Children(n) ==> Height(Underlying(c)) < Height(Underlying(n))
  {
    match n
    case Real(_, t) =>
      var hs := seq(|t.children|, i requires 0 <= i < |t.children| => Height(t.children[i]));
      forall c | c in Children(n) ensures Height(Underlying(c)) < Height(Underlying(n)) {
        var i :| 0 <= i < |Children(n)| && Children(n)[i] == c;
        assert hs[i] == Height(t.children[i]);
      }
    case Virtual(_, proxy) =>
      ChildrenAreLower(proxy);
  }

  // ---------------------------------------------------------------------------
  // __eq__ and __lt__ on paths
  // ---------------------------------------------------------------------------

  function Last(p: seq<Step>): Step
    requires |p| > 0
  {
    p[|p| - 1]
  }

  function Parent(p: seq<Step>): seq<Step>
    requires |p| > 0
  {
    p[..|p| - 1]
  }

  /** What _comparable_check raises when one side is the None above a root. */
  const NoneCompared := AssertionError("cannot compare elements without element number None")

  /** __eq__ compares kind, then num value, and only then looks at the parents. */
  predicate Agree(x: Step, y: Step)
  {
    x.kind == y.kind && x.num.num == y.num.num
  }

  /** __eq__: false on a different kind or num value, otherwise the parents' equality;
    * None == None holds, and None against an element fails the comparable check. */
  function Eq(a: seq<Step>, b: seq<Step>): Result<bool>
    requires |a| > 0 && |b| > 0
    decreases |a|
  {
    if !Agree(Last(a), Last(b)) then Ok(false)
    else if |a| == 1 && |b| == 1 then Ok(true)
    else if |a| == 1 || |b| == 1 then Err(NoneCompared)
    else Eq(Parent(a), Parent(b))
  }

  /** __lt__: a deeper left side asks parent > elem, a deeper right side asks
    * self > elem.parent; at the same LEVEL with equal parents the num values decide
    * (the SUBLEVEL test compares a kind with itself), otherwise the parents do. */
  function Lt(a: seq<Step>, b: seq<Step>): Result<bool>
    requires |a| > 0 && |b| > 0
    decreases |a| + |b|, 0
  {
    var la, lb := Level(Last(a).kind), Level(Last(b).kind);
    if la > lb then
      if |a| == 1 then Err(NoneCompared) else Gt(Parent(a), b)
    else if la < lb then
      if |b| == 1 then Err(NoneCompared) else Gt(a, Parent(b))
    else if |a| == 1 && |b| == 1 then Ok(Last(a).num.num < Last(b).num.num)
    else if |a| == 1 || |b| == 1 then Err(NoneCompared)
    else
      match Eq(Parent(a), Parent(b))
      case Err(e) => Err(e)
      case Ok(same) =>
        if same then Ok(Last(a).num.num < Last(b).num.num) else Lt(Parent(a), Parent(b))
  }

  /** __le__: equal, or else __lt__. */
  function Le(a: seq<Step>, b: seq<Step>): Result<bool>
    requires |a| > 0 && |b| > 0
    decreases |a| + |b|, 1
  {
    match Eq(a, b)
    case Err(e) => Err(e)
    case Ok(same) => if same then Ok(true) else Lt(a, b)
  }

  /** __gt__: not __le__. */
  function Gt(a: seq<Step>, b: seq<Step>): Result<bool>
    requires |a| > 0 && |b| > 0
    decreases |a| + |b|, 2
  {
    match Le(a, b)
    case Err(e) => Err(e)
    case Ok(le) => Ok(!le)
  }

  /** __ge__: not __lt__. */
  function Ge(a: seq<Step>, b: seq<Step>): Result<bool>
    requires |a| > 0 && |b| > 0
  {
    match Lt(a, b)
    case Err(e) => Err(e)
    case Ok(lt) => Ok(!lt)
  }

  /** Two paths of the same length that agree step by step. */
  predicate Pointwise(x: seq<Step>, y: seq<Step>)
  {
    |x| == |y| && forall i :: 0 <= i < |x| ==> Agree(x[i], y[i])
  }

  /** The last k steps of a path. */
  function Tail(p: seq<Step>, k: nat): seq<Step>
    requires k <= |p|
  {
    p[|p| - k..]
  }

  lemma PointwiseSnoc(x: seq<Step>, y: seq<Step>, u: Step, v: Step)
    ensures Pointwise(x + [u], y + [v]) <==> Pointwise(x, y) && Agree(u, v)
  {
    if Pointwise(x + [u], y + [v]) {
      assert Agree((x + [u])[|x|], (y + [v])[|y|]);
      forall i | 0 <= i < |x| ensures Agree(x[i], y[i]) {
        assert (x + [u])[i] == x[i] && (y + [v])[i] == y[i];
      }
    }
  }

  lemma TailSnoc(p: seq<Step>, k: nat)
    requires 0 < k <= |p|
    ensures Tail(p, k) == Tail(Parent(p), k - 1) + [Last(p)]
  {
  }

  /** __eq__ holds exactly on paths that agree step by step, and it fails exactly when
    * the paths have different lengths and the shorter one agrees with the end of the
    * longer one. */
  lemma {:induction false} EqMeaning(a: seq<Step>, b: seq<Step>)
    requires |a| > 0 && |b| > 0
    ensures Eq(a, b) == Ok(true) <==> Pointwise(a, b)
    ensures Eq(a, b).Err? <==> |a| != |b| && Pointwise(Tail(a, Min(|a|, |b|)), Tail(b, Min(|a|, |b|)))
    ensures Eq(a, b).Err? ==> Eq(a, b).error == NoneCompared
    decreases |a|
  {
    EqTrueIff(a, b);
    EqErrIff(a, b);
  }

  lemma {:induction false} EqTrueIff(a: seq<Step>, b: seq<Step>)
    requires |a| > 0 && |b| > 0
    ensures Eq(a, b) == Ok(true) <==> Pointwise(a, b)
    decreases |a|
  {
    assert a == Parent(a) + [Last(a)] && b == Parent(b) + [Last(b)];
    PointwiseSnoc(Parent(a), Parent(b), Last(a), Last(b));
    if Agree(Last(a), Last(b)) && |a| > 1 && |b| > 1 {
      EqTrueIff(Parent(a), Parent(b));
    }
  }

  lemma {:induction false} EqErrIff(a: seq<Step>, b: seq<Step>)
    requires |a| > 0 && |b| > 0
    ensures Eq(a, b).Err? <==> |a| != |b| && Pointwise(Tail(a, Min(|a|, |b|)), Tail(b, Min(|a|, |b|)))
    ensures Eq(a, b).Err? ==> Eq(a, b).error == NoneCompared
    decreases |a|
  {
    var k := Min(|a|, |b|);
    TailSnoc(a, k);
    TailSnoc(b, k);
    PointwiseSnoc(Tail(Parent(a), k - 1), Tail(Parent(b), k - 1), Last(a), Last(b));
    if Agree(Last(a), Last(b)) && |a| > 1 && |b| > 1 {
      assert Min(|Parent(a)|, |Parent(b)|) == k - 1;
      EqErrIff(Parent(a), Parent(b));
    }
  }

  function Min(a: nat, b: nat): nat
  {
    if a < b then a else b
  }

  lemma {:induction false} EqReflexive(a: seq<Step>)
    requires |a| > 0
    ensures Eq(a, a) == Ok(true)
  {
    EqMeaning(a, a);
  }

  lemma {:induction false} EqSymmetric(a: seq<Step>, b: seq<Step>)
    requires |a| > 0 && |b| > 0
    ensures Eq(a, b) == Eq(b, a)
    decreases |a|
  {
    if Agree(Last(a), Last(b)) && |a| > 1 && |b| > 1 {
      EqSymmetric(Parent(a), Parent(b));
    }
  }

  /** Every element is at most itself. */
  lemma LeReflexive(a: seq<Step>)
    requires |a| > 0
    ensures Le(a, a) == Ok(true)
  {
    EqReflexive(a);
  }

  /** An element is not less than itself. */
  lemma LtIrreflexive(a: seq<Step>)
    requires |a| > 0
    ensures Lt(a, a) == Ok(false)
  {
    if |a| > 1 {
      EqReflexive(Parent(a));
    }
  }

  /** Siblings below a shallower parent: at the same LEVEL the num values decide
    * whatever the SUBLEVELs, and at different LEVELs each is less than the other. */
  lemma LtSiblings(p: seq<Step>, x: Step, y: Step)
    requires |p| > 0
    requires Level(Last(p).kind) < Level(x.kind) && Level(Last(p).kind) < Level(y.kind)
    ensures Lt(p + [x], p + [y]) == Ok(if Level(x.kind) == Level(y.kind) then x.num.num < y.num.num else true)
  {
    var a, b := p + [x], p + [y];
    assert Parent(a) == p && Parent(b) == p && Last(a) == x && Last(b) == y;
    EqReflexive(p);
    if Level(x.kind) > Level(y.kind) {
      ParentBelowChild(p, y);
    } else if Level(x.kind) < Level(y.kind) {
      ChildAboveParent(p, x);
    }
  }

  /** No element is greater than itself. */
  lemma GtSelf(p: seq<Step>)
    requires |p| > 0
    ensures Gt(p, p) == Ok(false)
  {
    EqReflexive(p);
  }

  /** One unfolding of __lt__ when the right side is deeper. */
  lemma LtDeeperRight(a: seq<Step>, b: seq<Step>)
    requires |a| > 0 && |b| > 1 && Level(Last(a).kind) < Level(Last(b).kind)
    ensures Lt(a, b) == Gt(a, Parent(b))
  {
  }

  /** One unfolding of __lt__ when the left side is deeper. */
  lemma LtDeeperLeft(a: seq<Step>, b: seq<Step>)
    requires |a| > 1 && |b| > 0 && Level(Last(a).kind) > Level(Last(b).kind)
    ensures Lt(a, b) == Gt(Parent(a), b)
  {
  }

  /** __gt__ of two unequal elements is the negation of __lt__. */
  lemma GtOfUnequal(a: seq<Step>, b: seq<Step>)
    requires |a| > 0 && |b| > 0 && !Agree(Last(a), Last(b))
    ensures Gt(a, b) == Ge(a, b)
  {
  }

  /** A parent is greater than a deeper child: they are unequal, and parent < child asks
    * parent > parent. */
  lemma ParentBelowChild(p: seq<Step>, y: Step)
    requires |p| > 0 && Level(Last(p).kind) < Level(y.kind)
    ensures Gt(p, p + [y]) == Ok(true)
  {
    var b := p + [y];
    assert Parent(b) == p && Last(b) == y;
    GtSelf(p);
    LtDeeperRight(p, b);
    GtOfUnequal(p, b);
  }

  lemma ChildAboveParent(p: seq<Step>, x: Step)
    requires |p| > 0 && Level(Last(p).kind) < Level(x.kind)
    ensures Gt(p + [x], p) == Ok(true)
  {
    var a := p + [x];
    assert Parent(a) == p && Last(a) == x;
    GtSelf(p);
    LtDeeperLeft(a, p);
    GtOfUnequal(a, p);
  }

  /** A child and its shallower parent are unordered: neither is less than the other. */
  lemma LtParentChildUnordered(p: seq<Step>, x: Step)
    requires |p| > 0 && Level(Last(p).kind) < Level(x.kind)
    ensures Lt(p + [x], p) == Ok(false) && Lt(p, p + [x]) == Ok(false)
  {
    var a := p + [x];
    assert Parent(a) == p && Last(a) == x;
    GtSelf(p);
    LtDeeperLeft(a, p);
    LtDeeperRight(p, a);
  }

  /** An article caption and a paragraph numbered alike under one article: the SUBLEVELs
    * differ, yet neither is less than the other. */
  lemma CaptionAndParagraphUnordered(p: seq<Step>)
    requires |p| > 0 && Last(p).kind == Article
    ensures Lt(p + [Step(ArticleCaption, ElementNumber(1.0), false)], p + [Step(Paragraph, ElementNumber(1.0), false)]) == Ok(false)
    ensures Lt(p + [Step(Paragraph, ElementNumber(1.0), false)], p + [Step(ArticleCaption, ElementNumber(1.0), false)]) == Ok(false)
    ensures SubLevel(ArticleCaption) < SubLevel(Paragraph)
  {
    LtSiblings(p, Step(ArticleCaption, ElementNumber(1.0), false), Step(Paragraph, ElementNumber(1.0), false));
    LtSiblings(p, Step(Paragraph, ElementNumber(1.0), false), Step(ArticleCaption, ElementNumber(1.0), false));
  }

  // ---------------------------------------------------------------------------
  // name, __str__ and code
  // ---------------------------------------------------------------------------

  /** The name of a real element: JNAME formatted with int(main_num) and the の-joined
    * branch numbers when it names {branch}, with int(main_num) when it mentions num,
    * and the literal JNAME otherwise. */
  function RenderName(k: Kind, e: ElementNumber): string
  {
    var main := IntToString(e.MainNum());
    assert e.BranchNums() == [] by { BranchNumsAlwaysEmpty(e); }
    if Contains(JName(k), "branch") then Fill(Fill(JName(k), "num", main), "branch", "")
    else if Contains(JName(k), "num") then Fill(JName(k), "num", main)
    else JName(k)
  }

  /** The name property: a virtual node takes its parent's name. */
  function Name(n: Node): string
  {
    match n
    case Real(_, t) => RenderName(t.kind, TreeNum(t))
    case Virtual(_, proxy) => Name(proxy)
  }

  /** __str__ along a path: str(None) above the root, str(parent) for a virtual node,
    * str(parent) + name otherwise. The name of a virtual step is its parent's. */
  function StrOf(p: seq<Step>): string
  {
    if p == [] then "None"
    else if Last(p).virtual then StrOf(Parent(p))
    else StrOf(Parent(p)) + RenderName(Last(p).kind, Last(p).num)
  }

  function Str(n: Node): string
  {
    StrOf(Path(n))
  }

  /** The segment code adds for one step: "/" + class name + "(" + "_"-joined numbers
    * + ")", where the numbers are main_num followed by the (always empty) branch_nums. */
  function CodeSegment(s: Step): string
  {
    assert s.num.BranchNums() == [] by { BranchNumsAlwaysEmpty(s.num); }
    "/" + ClassName(s.kind) + "(" + IntToString(s.num.MainNum()) + ")"
  }

  /** code along a path: the root's code is given (the base class would read None.code),
    * every other element appends its segment to its parent's code. */
  function CodeOf(p: seq<Step>, rootCode: string): string
    requires |p| > 0
  {
    if |p| == 1 then rootCode else CodeOf(Parent(p), rootCode) + CodeSegment(Last(p))
  }

  function Code(n: Node, rootCode: string): string
  {
    CodeOf(Path(n), rootCode)
  }

  /** A JNAME without a field is the name as it stands: the captions are named
    * 条見出し and 項見出し whatever their number. */
  lemma CaptionNames(e: ElementNumber)
    ensures RenderName(ArticleCaption, e) == "条見出し"
    ensures RenderName(ParagraphCaption, e) == "項見出し"
  {
    NoNumField("条見出し");
    NoNumField("項見出し");
  }

  lemma NoNumField(s: string)
    requires |s| == 4 && s[0] != 'n' && s[1] != 'n'
    ensures !Contains(s, "branch") && !Contains(s, "num")
  {
    ShortNoContains(s, "branch");
    assert !StartsWith(s, "num") by { assert s[..3][0] != 'n'; }
    assert !StartsWith(s[1..], "num") by { assert s[1..][..3][0] != 'n'; }
    assert s[1..][1..] == s[2..];
    ShortNoContains(s[2..], "num");
  }

  /** A JNAME with a {num} field only is filled with int(main_num): a paragraph is
    * named 第n項. */
  lemma ParagraphName(e: ElementNumber)
    ensures RenderName(Paragraph, e) == "第" + IntToString(e.MainNum()) + "項"
  {
    NumTemplate('第', '項', IntToString(e.MainNum()));
    assert [ '第' ] + "{num}" + [ '項' ] == "第{num}項";
  }

  /** A template c{num}d, c and d no brace and c no 'b', names num and not branch, and
    * filling it puts v between c and d. */
  lemma NumTemplate(c: char, d: char, v: string)
    requires c != '{' && c != 'b' && d != '{'
    ensures var t := [c] + "{num}" + [d];
      !Contains(t, "branch") && Contains(t, "num") && Fill(t, "num", v) == [c] + v + [d]
  {
    var t := [c] + "{num}" + [d];
    assert !StartsWith(t, "branch") by { assert t[..6][0] == c; }
    assert !StartsWith(t[1..], "branch") by { assert t[1..][..6][0] == '{'; }
    assert |t[1..][1..]| < 6;
    ShortNoContains(t[1..][1..], "branch");
    assert StartsWith(t[1..][1..], "num") by { assert t[1..][1..][..3] == "num"; }
    FillTemplate([c], "num", [d], v);
    assert [c] + "{" + "num" + "}" + [d] == t;
  }

  /** A JNAME with a {branch} field is filled with int(main_num) and the の-joined
    * branch numbers, and since branch_nums is always empty an article is named 第n条. */
  lemma ArticleName(e: ElementNumber)
    ensures RenderName(Article, e) == "第" + IntToString(e.MainNum()) + "条"
  {
    var main := IntToString(e.MainNum());
    BranchTemplate('第', '条', main);
    assert ['第'] + "{num}" + ['条'] + "{branch}" == "第{num}条{branch}";
    assert ['第'] + main + ['条'] == "第" + main + "条";
  }

  /** A template c{num}d{branch} names branch; filling num and then branch with the
    * empty string leaves c, v and d. */
  lemma BranchTemplate(c: char, d: char, v: string)
    requires c != '{' && d != '{'
    requires forall j :: 0 <= j < |v| ==> v[j] != '{'
    ensures var t := [c] + "{num}" + [d] + "{branch}";
      Contains(t, "branch") && Fill(Fill(t, "num", v), "branch", "") == [c] + v + [d]
  {
    BranchNamed(c, d);
    FillNumKeepsBranch(c, d, v);
    assert [c] + v + [d] + "{branch}" == [c] + v + [d] + "{" + "branch" + "}" + "";
    FillTemplate([c] + v + [d], "branch", "", "");
  }

  lemma BranchNamed(c: char, d: char)
    ensures Contains([c] + "{num}" + [d] + "{branch}", "branch")
  {
    var t := [c] + "{num}" + [d] + "{branch}";
    assert OccursAt(t, "branch", 8) by { assert t[8..14] == "branch"; }
    ContainsIff(t, "branch");
  }

  lemma FillNumKeepsBranch(c: char, d: char, v: string)
    requires c != '{' && d != '{'
    ensures Fill([c] + "{num}" + [d] + "{branch}", "num", v) == [c] + v + [d] + "{branch}"
  {
    var rest := [d] + "{branch}";
    var t := [c] + "{num}" + [d] + "{branch}";
    assert t == [c] + ("{num}" + rest);
    assert "{" + "num" + "}" == "{num}";
    ReplaceAppend([c], "{num}" + rest, "{num}", v);
    assert StartsWith("{num}" + rest, "{num}");
    assert ("{num}" + rest)[5..] == rest;
    BranchSuffixKept(d, v);
    assert [c] + (v + rest) == [c] + v + [d] + "{branch}";
  }

  /** Filling {num} leaves d{branch} alone. */
  lemma BranchSuffixKept(d: char, v: string)
    requires d != '{'
    ensures Replace([d] + "{branch}", "{num}", v) == [d] + "{branch}"
  {
    var s := [d] + "{branch}";
    assert !StartsWith(s, "{num}") by { assert s[..5][0] == d; }
    assert s[1..] == "{branch}";
    var b := "{branch}";
    assert !StartsWith(b, "{num}") by { assert b[..5][1] == 'b'; }
    ReplaceBraceFree(b[1..], "{num}", v);
    assert Replace(b, "{num}", v) == [b[0]] + b[1..];
  }

  lemma {:induction false} NameOfVirtual(target: Kind, proxy: Node, rootCode: string)
    ensures Name(Virtual(target, proxy)) == Name(proxy)
    ensures Str(Virtual(target, proxy)) == Str(proxy)
    ensures Code(Virtual(target, proxy), rootCode) == Code(proxy, rootCode) + "/" + ClassName(target) + "(0)"
    ensures NodeNum(Virtual(target, proxy)) == ElementNumber(0.0)
  {
    VirtualStr(target, proxy);
    VirtualCode(target, proxy, rootCode);
  }

  /** A virtual node renders as its proxy: its own step adds nothing to str(). */
  lemma {:induction false} VirtualStr(target: Kind, proxy: Node)
    ensures Str(Virtual(target, proxy)) == Str(proxy)
  {
    var p := Path(Virtual(target, proxy));
    assert p == Path(proxy) + [Step(target, VirtualNum, true)];
    assert Parent(p) == Path(proxy) && Last(p).virtual;
  }

  /** A virtual node's code is its proxy's followed by the segment of num 0. */
  lemma {:induction false} VirtualCode(target: Kind, proxy: Node, rootCode: string)
    ensures Code(Virtual(target, proxy), rootCode) == Code(proxy, rootCode) + "/" + ClassName(target) + "(0)"
  {
    var p := Path(Virtual(target, proxy));
    assert p == Path(proxy) + [Step(target, VirtualNum, true)];
    assert |p| > 1 && Parent(p) == Path(proxy) && Last(p) == Step(target, VirtualNum, true);
    assert CodeOf(p, rootCode) == CodeOf(Path(proxy), rootCode) + CodeSegment(Step(target, VirtualNum, true));
    VirtualSegment(target);
  }

  /** The code segment of a virtual step: its num is 0. */
  lemma VirtualSegment(target: Kind)
    ensures CodeSegment(Step(target, VirtualNum, true)) == "/" + ClassName(target) + "(0)"
  {
    assert VirtualNum.MainNum() == 0;
    assert IntToString(0) == [DigitChar(0)] == "0";
  }

  /** The last path segment of the code of any element below the root is its class
    * name followed by its parenthesised main number. */
  lemma CodeLastSegment(n: Node, rootCode: string)
    requires |Path(n)| > 1
    ensures LastSegment(Code(n, rootCode)) == ClassName(NodeKind(n)) + "(" + IntToString(NodeNum(n).MainNum()) + ")"
  {
    var p := Path(n);
    var name, nums := ClassName(NodeKind(n)), IntToString(NodeNum(n).MainNum());
    IntToStringChars(NodeNum(n).MainNum());
    ClassNameChars(NodeKind(n));
    var seg := name + "(" + nums + ")";
    SegmentHasNoSlash(name, nums);
    var pre := CodeOf(Parent(p), rootCode);
    assert Code(n, rootCode) == pre + CodeSegment(Last(p));
    assert CodeSegment(Last(p)) == "/" + seg;
    assert pre + CodeSegment(Last(p)) == pre + "/" + seg;
    LastSegmentAfterSlash(pre, seg);
  }

  lemma SegmentHasNoSlash(name: string, nums: string)
    requires NoPathChar(name) && NoPathChar(nums)
    ensures forall j :: 0 <= j < |name + "(" + nums + ")"| ==> (name + "(" + nums + ")")[j] != '/'
  {
    var seg := name + "(" + nums + ")";
    forall j | 0 <= j < |seg| ensures seg[j] != '/' {
      if j < |name| {
        assert seg[j] == name[j];
      } else if j > |name| && j < |seg| - 1 {
        assert seg[j] == nums[j - |name| - 1];
      }
    }
  }

  /** No character of str(i) or of a class name is a slash or a parenthesis. */
  predicate NoPathChar(s: string)
  {
    forall j :: 0 <= j < |s| ==> s[j] != '/' && s[j] != '(' && s[j] != ')'
  }

  lemma IntToStringChars(i: int)
    ensures NoPathChar(IntToString(i))
  {
    var s := NatToString(if i < 0 then -i else i);
    assert AllDigits(s);
    assert NoPathChar(s);
    if i < 0 {
      assert NoPathChar("-");
      assert IntToString(i) == "-" + s;
    }
  }

  lemma ClassNameChars(k: Kind)
    ensures NoPathChar(ClassName(k))
  {
    match k
    case Law | LawBody | MainProvision | Part => ClassNameChars1(k);
    case Chapter | Section | Subsection | Division => ClassNameChars2(k);
    case Article | ArticleCaption | Paragraph | ParagraphCaption => ClassNameChars3(k);
    case ParagraphSentence | Item | ItemSentence | Subitem1 => ClassNameChars4(k);
    case Subitem1Sentence | Subitem2 | Subitem2Sentence | Subitem3 => ClassNameChars5(k);
    case Subitem3Sentence | Subitem4 | Subitem4Sentence | Subitem5 => ClassNameChars6(k);
    case Subitem5Sentence | Column | Sentence | UnknownElement => ClassNameChars7(k);
  }

  lemma ClassNameChars1(k: Kind)
    requires k == Law || k == LawBody || k == MainProvision || k == Part
    ensures NoPathChar(ClassName(k))
  {
  }

  lemma ClassNameChars2(k: Kind)
    requires k == Chapter || k == Section || k == Subsection || k == Division
    ensures NoPathChar(ClassName(k))
  {
  }

  lemma ClassNameChars3(k: Kind)
    requires k == Article || k == ArticleCaption || k == Paragraph || k == ParagraphCaption
    ensures NoPathChar(ClassName(k))
  {
  }

  lemma ClassNameChars4(k: Kind)
    requires k == ParagraphSentence || k == Item || k == ItemSentence || k == Subitem1
    ensures NoPathChar(ClassName(k))
  {
  }

  lemma ClassNameChars5(k: Kind)
    requires k == Subitem1Sentence || k == Subitem2 || k == Subitem2Sentence || k == Subitem3
    ensures NoPathChar(ClassName(k))
  {
  }

  lemma ClassNameChars6(k: Kind)
    requires k == Subitem3Sentence || k == Subitem4 || k == Subitem4Sentence || k == Subitem5
    ensures NoPathChar(ClassName(k))
  {
  }

  lemma ClassNameChars7(k: Kind)
    requires k == Subitem5Sentence || k == Column || k == Sentence || k == UnknownElement
    ensures NoPathChar(ClassName(k))
  {
  }

  lemma {:induction false} LastSegmentAfterSlash(pre: string, seg: string)
    requires forall j :: 0 <= j < |seg| ==> seg[j] != '/'
    ensures LastSegment(pre + "/" + seg) == seg
    decreases |seg|
  {
    var s := pre + "/" + seg;
    if seg == [] {
      assert s[|s| - 1] == '/';
    } else {
      var init := seg[..|seg| - 1];
      assert s[..|s| - 1] == pre + "/" + init;
      LastSegmentAfterSlash(pre, init);
      assert init + [seg[|seg| - 1]] == seg;
    }
  }
}
