// The older kind registry of the top-level etypes.py: its own kind table (where
// Article sits at LEVEL 4), the TreeElement base class there (inheritance, name,
// __str__, _find_children, __eq__, __lt__, __le__), RootExpansion, get_etypes_core
// and sort_etypes. HieralchyError is raised there without being imported, so every
// `raise HieralchyError(...)` of that file ends in a NameError.
module OldEtypes {
  import opened Errors
  import opened Strings
  import opened Lawdata
  import Sorting

  // ---------------------------------------------------------------------------
  // The kind table
  // ---------------------------------------------------------------------------

  datatype Kind =
    | Law | LawBody | MainProvision | Part | Chapter | Section | Subsection | Division
    | Article | ArticleCaption | Paragraph | ParagraphCaption | ParagraphSentence
    | Item | ItemSentence
    | Subitem1 | Subitem1Sentence | Subitem2 | Subitem2Sentence | Subitem3 | Subitem3Sentence
    | Subitem4 | Subitem4Sentence | Subitem5 | Subitem5Sentence
    | Sentence

  /** LEVEL, as the chain of `X.LEVEL + 1` definitions works out. */
  function Level(k: Kind): int
  {
    match k
    case Law => 0
    case LawBody => 1
    case MainProvision => 2
    case Part => 3
    case Chapter => 4
    case Section => 5
    case Subsection => 6
    case Division => 7
    case Article => 4
    case ArticleCaption => 5
    case Paragraph => 6
    case ParagraphCaption => 7
    case ParagraphSentence => 8
    case Item => 8
    case ItemSentence => 9
    case Subitem1 => 9
    case Subitem1Sentence => 10
    case Subitem2 => 10
    case Subitem2Sentence => 11
    case Subitem3 => 11
    case Subitem3Sentence => 12
    case Subitem4 => 12
    case Subitem4Sentence => 13
    case Subitem5 => 13
    case Subitem5Sentence => 14
    case Sentence => 15
  }

  /** SUBLEVEL: 0 unless a class sets it. */
  function SubLevel(k: Kind): int
  {
    match k
    case Paragraph => 1
    case ParagraphSentence => 1
    case Item => 2
    case Subitem1 => 1
    case Subitem2 => 1
    case Subitem3 => 1
    case Subitem4 => 1
    case Subitem5 => 1
    case _ => 0
  }

  /** The sort key of sort_etypes. */
  function Key(k: Kind): (int, int)
  {
    (Level(k), SubLevel(k))
  }

  /** PARENT_CANDIDATES, in the order of the tuple. */
  function ParentCandidates(k: Kind): seq<Kind>
  {
    match k
    case Law => []
    case LawBody => [Law]
    case MainProvision => [LawBody]
    case Part => [MainProvision]
    case Chapter => [MainProvision, Part]
    case Section => [Chapter]
    case Subsection => [Section]
    case Division => [Subsection]
    case Article => [MainProvision, Part, Chapter, Section, Subsection, Division]
    case ArticleCaption => [Article]
    case Paragraph => [MainProvision, Article]
    case ParagraphCaption => [Paragraph]
    case ParagraphSentence => [Paragraph]
    case Item => [Paragraph]
    case ItemSentence => [Item]
    case Subitem1 => [Item]
    case Subitem1Sentence => [Subitem1]
    case Subitem2 => [Subitem1]
    case Subitem2Sentence => [Subitem2]
    case Subitem3 => [Subitem2]
    case Subitem3Sentence => [Subitem3]
    case Subitem4 => [Subitem3]
    case Subitem4Sentence => [Subitem4]
    case Subitem5 => [Subitem4]
    case Subitem5Sentence => [Subitem5]
    case Sentence =>
      [ParagraphSentence, ItemSentence, Subitem1Sentence, Subitem2Sentence,
       Subitem3Sentence, Subitem4Sentence, Subitem5Sentence]
  }

  /** JNAME: the template of an element's Japanese name; "" unless a class sets it. */
  function JName(k: Kind): string
  {
    match k
    case Part => "第{num}編"
    case Chapter => "第{num}章"
    case Section => "第{num}節"
    case Subsection => "第{num}款"
    case Division => "第{num}目"
    case Article => "第{num}条{branch}"
    case ArticleCaption => "条見出し"
    case Paragraph => "第{num}項"
    case ParagraphCaption => "項見出し"
    case Item => "第{num}号{branch}"
    case Subitem1 => "{num}号細分{branch}"
    case Subitem2 => "{num}号細々分{branch}"
    case Subitem3 => "{num}号細々々分{branch}"
    case Subitem4 => "{num}号細々々々分{branch}"
    case Subitem5 => "{num}号細々々々々分{branch}"
    case Sentence => "第{num}文"
    case _ => ""
  }

  /** The class name (__name__) of the kind. */
  function ClassName(k: Kind): string
  {
    match k
    case Law => "Law"
    case LawBody => "LawBody"
    case MainProvision => "MainProvision"
    case Part => "Part"
    case Chapter => "Chapter"
    case Section => "Section"
    case Subsection => "Subsection"
    case Division => "Division"
    case Article => "Article"
    case ArticleCaption => "ArticleCaption"
    case Paragraph => "Paragraph"
    case ParagraphCaption => "ParagraphCaption"
    case ParagraphSentence => "ParagraphSentence"
    case Item => "Item"
    case ItemSentence => "ItemSentence"
    case Subitem1 => "Subitem1"
    case Subitem1Sentence => "Subitem1Sentence"
    case Subitem2 => "Subitem2"
    case Subitem2Sentence => "Subitem2Sentence"
    case Subitem3 => "Subitem3"
    case Subitem3Sentence => "Subitem3Sentence"
    case Subitem4 => "Subitem4"
    case Subitem4Sentence => "Subitem4Sentence"
    case Subitem5 => "Subitem5"
    case Subitem5Sentence => "Subitem5Sentence"
    case Sentence => "Sentence"
  }

  /** is_root(): True for Law, which takes it from RootExpansion; TreeElement says False. */
  predicate IsRoot(k: Kind)
  {
    k == Law
  }

  /** The kind classes in the order the module defines them. */
  const KINDS: seq<Kind> :=
    [Law, LawBody, MainProvision, Part, Chapter, Section, Subsection, Division,
     Article, ArticleCaption, Paragraph, ParagraphCaption, ParagraphSentence,
     Item, ItemSentence, Subitem1, Subitem1Sentence, Subitem2, Subitem2Sentence,
     Subitem3, Subitem3Sentence, Subitem4, Subitem4Sentence, Subitem5, Subitem5Sentence,
     Sentence]

  /** Law is the only kind without parent candidates, and the only root. */
  lemma OnlyLawIsParentless(k: Kind)
    ensures ParentCandidates(k) == [] <==> k == Law
    ensures IsRoot(k) <==> ParentCandidates(k) == []
  {
  }

  /** Every parent candidate sits at a smaller LEVEL than its child, except that Article
    * (LEVEL 4) also accepts Chapter, Section, Subsection and Division, at LEVELs 4 to 7. */
  lemma ParentsShallowerExceptArticle(k: Kind, p: Kind)
    requires p in ParentCandidates(k)
    ensures k != Article ==> Level(p) < Level(k)
    ensures k == Article ==> (Level(p) < Level(k) <==> p in [MainProvision, Part])
  {
  }

  /** Three pairs of kinds share a (LEVEL, SUBLEVEL) key, and no other pair does. */
  lemma KeyCollisions(a: Kind, b: Kind)
    requires a != b && Key(a) == Key(b)
    ensures (a, b) in [(Article, Chapter), (Chapter, Article), (ArticleCaption, Section),
                       (Section, ArticleCaption), (ParagraphCaption, Division), (Division, ParagraphCaption)]
  {
  }

  // ---------------------------------------------------------------------------
  // sort_etypes
  // ---------------------------------------------------------------------------

  /** sorted(etypes, key=(LEVEL, SUBLEVEL)): Python's sort is stable, and so is the
    * insertion sort of Sorting, which puts an element after the equal keys before it. */
  function SortEtypes(ks: seq<Kind>): seq<Kind>
  {
    Sorting.SortBy(ks, Key)
  }

  /** sort_etypes returns a permutation of its argument in ascending (LEVEL, SUBLEVEL) order. */
  lemma SortEtypesCorrect(ks: seq<Kind>)
    ensures Sorting.SortedBy(SortEtypes(ks), Key)
    ensures multiset(SortEtypes(ks)) == multiset(ks)
  {
    Sorting.SortByCorrect(ks, Key);
  }

  /** Article moves in front of the Division that precedes it in the class order, while
    * Article and Chapter, whose keys tie, keep whatever order they come in. */
  lemma SortEtypesExamples()
    ensures SortEtypes([Division, Article]) == [Article, Division]
    ensures SortEtypes([Chapter, Article]) == [Chapter, Article]
    ensures SortEtypes([Article, Chapter]) == [Article, Chapter]
  {
    assert Key(Division) == (7, 0) && Key(Article) == (4, 0) && Key(Chapter) == (4, 0);
    SortTwo(Division, Article);
    SortTwo(Chapter, Article);
    SortTwo(Article, Chapter);
  }

  /** Two kinds swap exactly when the second has the smaller key. */
  lemma SortTwo(x: Kind, y: Kind)
    ensures SortEtypes([x, y]) == if Sorting.KeyLt(Key(y), Key(x)) then [y, x] else [x, y]
  {
    assert [x, y][..1] == [x] && [x][..0] == [];
    assert Sorting.SortBy([x], Key) == [x];
    assert SortEtypes([x, y]) == Sorting.InsertBy(y, [x], Key);
    assert [x][1..] == [];
  }

  // ---------------------------------------------------------------------------
  // Elements: __eq__, __lt__, __le__
  // ---------------------------------------------------------------------------

  /** An element: its kind, the number its reader supplies (the base _read_num names an
    * undefined class) and its parent, None above a root or a parentless element. */
  datatype Node = Node(kind: Kind, num: ElementNumber, parent: Option<Node>)

  /** The depth of an element below the top of its parent chain. */
  function Depth(n: Node): (d: nat)
    ensures d == if n.parent.None? then 0 else Depth(n.parent.value) + 1
  {
    match n.parent
    case None => 0
    case Some(p) => Depth(p) + 1
  }

  /** The assertion of _comparable_check when the other side is None. */
  const NoneCompared := AssertionError("cannot compare elements without element number None")

  /** raise HieralchyError(...) in a module that never imports the name. */
  const NoHieralchyError := NameError("name 'HieralchyError' is not defined")

  /** a == b where either side is an element or None. None == None holds; None against an
    * element reaches the element's __eq__, whose _comparable_check fails. Otherwise kinds,
    * then number values, then the parents are compared. */
  function Eq(a: Option<Node>, b: Option<Node>): (r: Result<bool>)
    ensures r == Ok(false) ==> a.Some? && b.Some?
    decreases a
  {
    match a
    case None => if b.None? then Ok(true) else Err(NoneCompared)
    case Some(x) =>
      match b
      case None => Err(NoneCompared)
      case Some(y) =>
        if x.kind != y.kind then Ok(false)
        else if x.num.num != y.num.num then Ok(false)
        else Eq(x.parent, y.parent)
  }

  /** __eq__ holds exactly for equal elements, and fails only between chains of different
    * depths. */
  lemma {:induction false} EqMeaning(a: Option<Node>, b: Option<Node>)
    ensures Eq(a, b) == Ok(true) <==> a == b
    ensures Eq(a, b).Err? ==> Eq(a, b) == Err(NoneCompared)
    ensures a.Some? && b.Some? && Depth(a.value) == Depth(b.value) ==> Eq(a, b).Ok?
    decreases a
  {
    if a.Some? && b.Some? && a.value.kind == b.value.kind && a.value.num.num == b.value.num.num {
      EqMeaning(a.value.parent, b.value.parent);
      assert a.value.num == b.value.num;
    }
  }

  lemma {:induction false} EqSymmetric(a: Option<Node>, b: Option<Node>)
    ensures Eq(a, b) == Eq(b, a)
    decreases a
  {
    if a.Some? && b.Some? && a.value.kind == b.value.kind && a.value.num.num == b.value.num.num {
      EqSymmetric(a.value.parent, b.value.parent);
    }
  }

  /** a < b: the parents are compared first. Equal parents with different LEVELs raise
    * (a NameError, see above); with equal LEVELs the numbers decide, because the SUBLEVEL
    * test compares a kind with itself. Unequal parents pass the question to the parents,
    * with no climbing to a common LEVEL. */
  function Lt(a: Node, b: Node): (r: Result<bool>)
    decreases a
  {
    match Eq(a.parent, b.parent)
    case Err(e) => Err(e)
    case Ok(true) =>
      if Level(a.kind) != Level(b.kind) then Err(NoHieralchyError)
      else Ok(a.num.num < b.num.num)
    case Ok(false) => Lt(a.parent.value, b.parent.value)
  }

  /** a <= b: a == b, else a < b. */
  function Le(a: Node, b: Node): Result<bool>
  {
    match Eq(Some(a), Some(b))
    case Err(e) => Err(e)
    case Ok(true) => Ok(true)
    case Ok(false) => Lt(a, b)
  }

  lemma LtIrreflexive(a: Node)
    ensures Lt(a, a) == Ok(false)
  {
    EqMeaning(a.parent, a.parent);
  }

  /** Children of one parent: the same LEVEL compares numbers, different LEVELs raise. */
  lemma LtSiblings(p: Option<Node>, x: Kind, m: ElementNumber, y: Kind, n: ElementNumber)
    ensures Lt(Node(x, m, p), Node(y, n, p))
            == if Level(x) != Level(y) then Err(NoHieralchyError) else Ok(m.num < n.num)
  {
    EqMeaning(p, p);
  }

  /** Elements at different depths cannot be compared: the parent chain of one runs out
    * first and None meets an element. */
  lemma {:induction false} LtDifferentDepths(a: Node, b: Node)
    requires Depth(a) != Depth(b)
    ensures Lt(a, b) == Err(NoneCompared)
    decreases a
  {
    EqMeaning(a.parent, b.parent);
    if Eq(a.parent, b.parent) == Ok(false) {
      LtDifferentDepths(a.parent.value, b.parent.value);
    }
  }

  /** At one depth, unequal parents hand the comparison to the parents. */
  lemma LtUnequalParents(a: Node, b: Node)
    requires Depth(a) == Depth(b) && a.parent != b.parent
    ensures a.parent.Some? && b.parent.Some?
    ensures Lt(a, b) == Lt(a.parent.value, b.parent.value)
  {
    EqMeaning(a.parent, b.parent);
  }

  /** __lt__ is asymmetric. */
  lemma {:induction false} LtAsymmetric(a: Node, b: Node)
    requires Lt(a, b) == Ok(true)
    ensures Lt(b, a) == Ok(false)
    decreases a
  {
    EqSymmetric(a.parent, b.parent);
    EqMeaning(a.parent, b.parent);
    if Eq(a.parent, b.parent) == Ok(false) {
      LtAsymmetric(a.parent.value, b.parent.value);
    }
  }

  /** __le__ is equality or __lt__; the failing __eq__ of different depths is the failing
    * __lt__. */
  lemma LeMeaning(a: Node, b: Node)
    ensures Le(a, b) == if a == b then Ok(true) else Lt(a, b)
  {
    EqMeaning(Some(a), Some(b));
    if Eq(Some(a), Some(b)).Err? {
      assert Depth(a) != Depth(b);
      LtDifferentDepths(a, b);
    }
  }

  // ---------------------------------------------------------------------------
  // inheritance, name and __str__
  // ---------------------------------------------------------------------------

  /** cls.inheritance(parent) for the element the reader builds with number num: Law takes
    * RootExpansion's, which always raises; any other kind raises (a NameError, see above)
    * unless the parent's kind is a parent candidate, and returns a child of parent. */
  function Inheritance(cls: Kind, parent: Node, num: ElementNumber): (r: Result<Node>)
    ensures r.Ok? <==> cls != Law && parent.kind in ParentCandidates(cls)
    ensures r.Ok? ==> r.value.kind == cls && r.value.parent == Some(parent) && r.value.num == num
    ensures cls == Law ==> r == Err(GenericException("You cannot call inheritance by root class Law"))
    ensures cls != Law && parent.kind !in ParentCandidates(cls) ==> r == Err(NoHieralchyError)
  {
    if cls == Law then Err(GenericException("You cannot call inheritance by root class Law"))
    else if parent.kind !in ParentCandidates(cls) then Err(NoHieralchyError)
    else Ok(Node(cls, num, Some(parent)))
  }

  /** A child built by inheritance sits one level below its parent and sorts among its
    * siblings by number. */
  lemma InheritanceChild(cls: Kind, parent: Node, m: ElementNumber, n: ElementNumber)
    requires Inheritance(cls, parent, m).Ok?
    ensures Depth(Inheritance(cls, parent, m).value) == Depth(parent) + 1
    ensures Lt(Inheritance(cls, parent, m).value, Inheritance(cls, parent, n).value) == Ok(m.num < n.num)
  {
    LtSiblings(Some(parent), cls, m, cls, n);
  }

  /** An Article may be attached below a Division although the Division is deeper. */
  lemma ArticleBelowDivision(d: Node, n: ElementNumber)
    requires d.kind == Division
    ensures Inheritance(Article, d, n).Ok? && Level(Article) < Level(d.kind)
  {
  }

  /** The name property: JNAME formatted with int(main_num) and the の-joined branch
    * numbers when it names {branch}, with int(main_num) when it mentions num, and the
    * literal JNAME otherwise. */
  function Name(n: Node): string
  {
    var main := IntToString(n.num.MainNum());
    assert n.num.BranchNums() == [] by { BranchNumsAlwaysEmpty(n.num); }
    if Contains(JName(n.kind), "branch") then Fill(Fill(JName(n.kind), "num", main), "branch", "")
    else if Contains(JName(n.kind), "num") then Fill(JName(n.kind), "num", main)
    else JName(n.kind)
  }

  /** __str__: a root renders as its law's name followed by its own name (RootExpansion's
    * __str__), any other element as str(parent) followed by its name, where str(None) is
    * "None". lawName is the name of the LawData the root holds. */
  function Str(n: Node, lawName: string): string
    decreases n
  {
    if IsRoot(n.kind) then lawName + Name(n)
    else match n.parent
      case None => "None" + Name(n)
      case Some(p) => Str(p, lawName) + Name(n)
  }

  /** The root of an element's chain: the nearest Law above it, or its topmost ancestor. */
  function Top(n: Node): (t: Node)
    ensures IsRoot(t.kind) || t.parent.None?
    decreases n
  {
    if IsRoot(n.kind) then n
    else match n.parent
      case None => n
      case Some(p) => Top(p)
  }

  /** __str__ starts with the law's name when the chain reaches a Law and with "None"
    * otherwise, and it ends with the element's own name. */
  lemma {:induction false} StrShape(n: Node, lawName: string)
    ensures IsRoot(Top(n).kind) ==> StartsWith(Str(n, lawName), lawName)
    ensures !IsRoot(Top(n).kind) ==> StartsWith(Str(n, lawName), "None")
    ensures |Name(n)| <= |Str(n, lawName)|
            && Str(n, lawName)[|Str(n, lawName)| - |Name(n)|..] == Name(n)
    decreases n
  {
    var s := Str(n, lawName);
    if IsRoot(n.kind) {
      assert s[..|lawName|] == lawName;
    } else if n.parent.None? {
      assert s[..4] == "None";
    } else {
      var p := n.parent.value;
      StrShape(p, lawName);
      var ps := Str(p, lawName);
      assert s == ps + Name(n);
      assert s[..|ps|] == ps;
      if IsRoot(Top(n).kind) {
        assert s[..|lawName|] == ps[..|lawName|];
      } else {
        assert s[..4] == ps[..4];
      }
    }
  }

  /** A kind whose JNAME is empty gives the empty name. */
  lemma EmptyName(n: Node)
    requires JName(n.kind) == ""
    ensures Name(n) == ""
  {
    ShortNoContains("", "branch");
    ShortNoContains("", "num");
  }

  /** A chapter is named 第n章 after its rounded number n. */
  lemma ChapterName(n: Node)
    requires n.kind == Chapter
    ensures Name(n) == "第" + IntToString(n.num.MainNum()) + "章"
  {
    var t := "第{num}章";
    assert !Contains(t, "branch") by {
      assert t[1..] == "{num}章";
      assert !StartsWith(t, "branch") by { assert t[..6][0] == '第'; }
      assert !StartsWith(t[1..], "branch") by { assert t[1..][..6][0] == '{'; }
      assert t[1..][1..] == "num}章";
      ShortNoContains("num}章", "branch");
    }
    assert Contains(t, "num") by {
      assert t[1..][1..] == "num}章";
      assert StartsWith("num}章", "num");
    }
    FillTemplate("第", "num", "章", IntToString(n.num.MainNum()));
    assert "第" + "{" + "num" + "}" + "章" == t;
  }

  /** An element with an empty name renders as its parent does. */
  lemma StrOfEmptyNamed(n: Node, p: Node, lawName: string)
    requires !IsRoot(n.kind) && n.parent == Some(p) && Name(n) == ""
    ensures Str(n, lawName) == Str(p, lawName)
  {
    assert Str(n, lawName) == Str(p, lawName) + "";
  }

  /** A law, its LawBody and its MainProvision all render as the law's name. */
  lemma StrOfMainProvision(lawName: string, m: ElementNumber)
    ensures Str(Node(MainProvision, m, Some(Node(LawBody, m, Some(Node(Law, m, None))))), lawName) == lawName
  {
    var law := Node(Law, m, None);
    var body := Node(LawBody, m, Some(law));
    EmptyName(law);
    EmptyName(body);
    EmptyName(Node(MainProvision, m, Some(body)));
    assert Str(law, lawName) == lawName + "";
    StrOfEmptyNamed(body, law, lawName);
    StrOfEmptyNamed(Node(MainProvision, m, Some(body)), body, lawName);
  }

  /** A chapter directly below the main provision of a law renders as the law's name and
    * 第n章: the root, its LawBody and its MainProvision have empty names. */
  lemma StrOfChapter(lawName: string, e: ElementNumber, m: ElementNumber)
    ensures Str(Node(Chapter, e, Some(Node(MainProvision, m, Some(Node(LawBody, m,
              Some(Node(Law, m, None))))))), lawName) == lawName + "第" + IntToString(e.MainNum()) + "章"
  {
    var main := Node(MainProvision, m, Some(Node(LawBody, m, Some(Node(Law, m, None)))));
    var ch := Node(Chapter, e, Some(main));
    StrOfMainProvision(lawName, m);
    ChapterName(ch);
    assert !IsRoot(ch.kind);
    assert Str(ch, lawName) == Str(main, lawName) + Name(ch);
  }

  // ---------------------------------------------------------------------------
  // _find_children
  // ---------------------------------------------------------------------------

  /** A Python dict from names to children: its keys in insertion order and its entries. */
  datatype ChildDict = ChildDict(keys: seq<string>, entries: map<string, Node>)
  {
    ghost predicate Valid()
    {
      (forall i, j :: 0 <= i < j < |keys| ==> keys[i] != keys[j])
      && (forall k :: k in entries <==> k in keys)
    }

    /** dict.values(), in the order the keys were first inserted. */
    function Values(): (vs: seq<Node>)
      requires Valid()
      ensures |vs| == |keys|
    {
      seq(|keys|, i requires 0 <= i < |keys| => entries[keys[i]])
    }

    /** d[k] = v: a new key goes last, an existing key keeps its place. */
    function Put(k: string, v: Node): (d: ChildDict)
      requires Valid()
      ensures d.Valid() && d.entries == entries[k := v]
      ensures k in keys ==> d.keys == keys
      ensures k !in keys ==> d.keys == keys + [k]
    {
      if k in keys then ChildDict(keys, entries[k := v]) else ChildDict(keys + [k], entries[k := v])
    }
  }

  const EmptyDict := ChildDict([], map[])

  /** c in vs: each value in turn is compared with c, and a failing comparison raises. */
  function In(c: Node, vs: seq<Node>): (r: Result<bool>)
    ensures r == Ok(false) <==> forall i :: 0 <= i < |vs| ==> Eq(Some(vs[i]), Some(c)) == Ok(false)
  {
    if vs == [] then Ok(false)
    else match Eq(Some(vs[0]), Some(c))
      case Err(e) => Err(e)
      case Ok(true) => Ok(true)
      case Ok(false) => In(c, vs[1..])
  }

  /** The loop of _find_children from the dict d on over the listed children cs: a child
    * equal to a stored value raises (a NameError, see above), any other is stored under
    * its name. */
  function FindFrom(d: ChildDict, cs: seq<Node>): (r: Result<ChildDict>)
    requires d.Valid()
    ensures r.Ok? ==> r.value.Valid()
    decreases |cs|
  {
    if cs == [] then Ok(d)
    else match In(cs[0], d.Values())
      case Err(e) => Err(e)
      case Ok(true) => Err(NoHieralchyError)
      case Ok(false) => FindFrom(d.Put(Name(cs[0]), cs[0]), cs[1..])
  }

  /** _find_children over what _read_children_list returned. */
  function FindChildrenOf(cs: seq<Node>): Result<ChildDict>
  {
    FindFrom(EmptyDict, cs)
  }

  /** _find_children as the loop it is. */
  method FindChildren(cs: seq<Node>) returns (r: Result<ChildDict>)
    ensures r == FindChildrenOf(cs)
  {
    var d := EmptyDict;
    var i := 0;
    while i < |cs|
      invariant 0 <= i <= |cs| && d.Valid()
      invariant FindFrom(d, cs[i..]) == FindChildrenOf(cs)
    {
      assert cs[i..][1..] == cs[i + 1..];
      var child := cs[i];
      var vs := d.Values();
      var found := false;
      var j := 0;
      while j < |vs|
        invariant 0 <= j <= |vs|
        invariant In(child, vs) == In(child, vs[j..])
      {
        assert vs[j..][1..] == vs[j + 1..];
        var e := Eq(Some(vs[j]), Some(child));
        if e.Err? {
          return Err(e.error);
        }
        if e.value {
          found := true;
          break;
        }
        j := j + 1;
      }
      if found {
        return Err(NoHieralchyError);
      }
      d := d.Put(Name(child), child);
      i := i + 1;
    }
    return Ok(d);
  }

  function Names(cs: seq<Node>): (ns: seq<string>)
    ensures |ns| == |cs|
  {
    seq(|cs|, i requires 0 <= i < |cs| => Name(cs[i]))
  }

  /** Sibling elements: one parent for all. */
  predicate Siblings(cs: seq<Node>, p: Node)
  {
    forall i :: 0 <= i < |cs| ==> cs[i].parent == Some(p)
  }

  /** Distinct siblings with distinct names are all kept, in order. */
  lemma FindChildrenDistinct(cs: seq<Node>, p: Node)
    requires Siblings(cs, p)
    requires forall i, j :: 0 <= i < j < |cs| ==> Name(cs[i]) != Name(cs[j]) && cs[i] != cs[j]
    ensures FindChildrenOf(cs).Ok? && FindChildrenOf(cs).value.Values() == cs
  {
    assert cs[0..] == cs;
    FindFromDistinct(cs, p, 0, EmptyDict);
  }

  lemma NotInPrefix(cs: seq<Node>, p: Node, k: nat)
    requires Siblings(cs, p)
    requires forall i, j :: 0 <= i < j < |cs| ==> Name(cs[i]) != Name(cs[j]) && cs[i] != cs[j]
    requires k < |cs|
    ensures In(cs[k], cs[..k]) == Ok(false) && Name(cs[k]) !in Names(cs[..k])
  {
    forall i | 0 <= i < k
      ensures Eq(Some(cs[..k][i]), Some(cs[k])) == Ok(false)
    {
      assert cs[..k][i] == cs[i];
      EqMeaning(Some(cs[i]), Some(cs[k]));
    }
    assert forall i :: 0 <= i < k ==> Names(cs[..k])[i] == Name(cs[i]);
  }

  lemma PutNext(cs: seq<Node>, k: nat, d: ChildDict)
    requires k < |cs| && d.Valid() && d.keys == Names(cs[..k]) && d.Values() == cs[..k]
    requires Name(cs[k]) !in Names(cs[..k])
    ensures d.Put(Name(cs[k]), cs[k]).keys == Names(cs[..k + 1])
    ensures d.Put(Name(cs[k]), cs[k]).Values() == cs[..k + 1]
  {
    assert cs[..k + 1] == cs[..k] + [cs[k]];
  }

  lemma {:induction false} FindFromDistinct(cs: seq<Node>, p: Node, k: nat, d: ChildDict)
    requires Siblings(cs, p)
    requires forall i, j :: 0 <= i < j < |cs| ==> Name(cs[i]) != Name(cs[j]) && cs[i] != cs[j]
    requires k <= |cs| && d.Valid() && d.keys == Names(cs[..k]) && d.Values() == cs[..k]
    ensures FindFrom(d, cs[k..]).Ok? && FindFrom(d, cs[k..]).value.Values() == cs
    decreases |cs| - k
  {
    if k == |cs| {
      assert cs[..k] == cs;
    } else {
      var c := cs[k];
      NotInPrefix(cs, p, k);
      assert In(c, d.Values()) == Ok(false);
      var d' := d.Put(Name(c), c);
      PutNext(cs, k, d);
      assert cs[k..][1..] == cs[k + 1..];
      FindFromDistinct(cs, p, k + 1, d');
    }
  }

  /** A child listed twice in a row raises. */
  lemma RepeatRaises(c: Node)
    ensures FindChildrenOf([c, c]) == Err(NoHieralchyError)
  {
    var d := EmptyDict.Put(Name(c), c);
    assert EmptyDict.Values() == [];
    assert In(c, []) == Ok(false);
    assert [c, c][1..] == [c];
    assert FindChildrenOf([c, c]) == FindFrom(d, [c]);
    assert d.Values() == [c];
    EqMeaning(Some(c), Some(c));
    assert In(c, [c]) == Ok(true);
  }

  /** Two different siblings with one name: the second replaces the first. */
  lemma SameNameOverwrites(x: Node, y: Node)
    requires x.parent == y.parent && x != y && Name(x) == Name(y)
    ensures FindChildrenOf([x, y]).Ok?
    ensures FindChildrenOf([x, y]).value.Values() == [y]
  {
    EqMeaning(Some(x), Some(y));
    var d := EmptyDict.Put(Name(x), x);
    assert d.Values() == [x];
    assert In(y, [x]) == Ok(false);
    assert [x, y][1..] == [y];
    assert FindChildrenOf([x, y]) == FindFrom(d, [y]);
    var d2 := d.Put(Name(y), y);
    assert FindFrom(d, [y]) == FindFrom(d2, []);
    assert d2.Values() == [y];
  }

  // ---------------------------------------------------------------------------
  // get_etypes_core
  // ---------------------------------------------------------------------------

  /** What get_etypes_core sees of a class: its __name__ and str(), whether it has an
    * etype attribute, whether it is TreeElement itself, and what is_root() answers (None
    * when the class has no is_root). */
  datatype ClassInfo = ClassInfo(name: string, repr: string, hasEtype: bool, isTreeElement: bool,
                                 isRoot: Option<bool>)

  /** A value of the globals dict: an instance of type, or anything else. */
  datatype GlobalValue = NotAClass | AClass(info: ClassInfo)

  /** The entries the loop does not skip: classes carrying etype, not named after an
    * Expansion, and other than TreeElement. */
  predicate Eligible(name: string, v: GlobalValue)
  {
    v.AClass? && v.info.hasEtype && !Contains(name, "Expansion") && !v.info.isTreeElement
  }

  const RootNotUnique := AssertionError("root elem has to be unique.")

  function Reprs(cs: seq<ClassInfo>): (rs: seq<string>)
    ensures |rs| == |cs|
  {
    if cs == [] then [] else Reprs(cs[..|cs| - 1]) + [cs[|cs| - 1].repr]
  }

  /** The assertion at the end of the loop: str() of a list shows its items' reprs. */
  function NoRoot(etypes: seq<ClassInfo>): Error
  {
    AssertionError("No root has been defined." + "[" + Join(", ", Reprs(etypes)) + "]")
  }

  function NoIsRoot(c: ClassInfo): Error
  {
    AttributeError("type object '" + c.name + "' has no attribute 'is_root'")
  }

  /** The classes the loop does not skip, in the order of the dict. */
  function Candidates(gs: seq<(string, GlobalValue)>): (cs: seq<ClassInfo>)
    ensures |cs| <= |gs|
  {
    if gs == [] then []
    else (if Eligible(gs[0].0, gs[0].1) then [gs[0].1.info] else []) + Candidates(gs[1..])
  }

  /** The loop of get_etypes_core from the given root and etypes list on over the
    * remaining candidates, followed by its final assertion. */
  function Scan(cs: seq<ClassInfo>, root: Option<ClassInfo>, etypes: seq<ClassInfo>): Result<seq<ClassInfo>>
    decreases |cs|
  {
    if cs == [] then
      if root.None? then Err(NoRoot(etypes)) else Ok([root.value] + etypes)
    else
      match cs[0].isRoot
      case None => Err(NoIsRoot(cs[0]))
      case Some(true) => if root.Some? then Err(RootNotUnique) else Scan(cs[1..], Some(cs[0]), etypes)
      case Some(false) => Scan(cs[1..], root, etypes + [cs[0]])
  }

  /** get_etypes_core(globals_dict), the items of the dict given in their order. */
  function EtypesCore(gs: seq<(string, GlobalValue)>): Result<seq<ClassInfo>>
  {
    Scan(Candidates(gs), None, [])
  }

  /** get_etypes_core as the loop it is. */
  method GetEtypesCore(gs: seq<(string, GlobalValue)>) returns (r: Result<seq<ClassInfo>>)
    ensures r == EtypesCore(gs)
  {
    var etypes: seq<ClassInfo> := [];
    var root: Option<ClassInfo> := None;
    var i := 0;
    while i < |gs|
      invariant 0 <= i <= |gs|
      invariant Scan(Candidates(gs[i..]), root, etypes) == EtypesCore(gs)
    {
      assert gs[i..][1..] == gs[i + 1..];
      var (name, v) := gs[i];
      if !Eligible(name, v) {
        assert Candidates(gs[i..]) == Candidates(gs[i + 1..]);
        i := i + 1;
        continue;
      }
      var c := v.info;
      assert Candidates(gs[i..]) == [c] + Candidates(gs[i + 1..]);
      assert ([c] + Candidates(gs[i + 1..]))[1..] == Candidates(gs[i + 1..]);
      if c.isRoot.None? {
        return Err(NoIsRoot(c));
      }
      if c.isRoot.value {
        if root.Some? {
          return Err(RootNotUnique);
        }
        root := Some(c);
      } else {
        etypes := etypes + [c];
      }
      i := i + 1;
    }
    if root.None? {
      return Err(NoRoot(etypes));
    }
    return Ok([root.value] + etypes);
  }

  /** The candidates whose is_root() answers True. */
  function Roots(cs: seq<ClassInfo>): (rs: seq<ClassInfo>)
    ensures |rs| <= |cs|
    ensures forall i :: 0 <= i < |rs| ==> rs[i] in cs && rs[i].isRoot == Some(true)
  {
    if cs == [] then []
    else (if cs[0].isRoot == Some(true) then [cs[0]] else []) + Roots(cs[1..])
  }

  /** The candidates whose is_root() answers False. */
  function Others(cs: seq<ClassInfo>): (os: seq<ClassInfo>)
    ensures |os| <= |cs|
    ensures forall i :: 0 <= i < |os| ==> os[i] in cs && os[i].isRoot == Some(false)
  {
    if cs == [] then []
    else (if cs[0].isRoot == Some(false) then [cs[0]] else []) + Others(cs[1..])
  }

  predicate AllAnswer(cs: seq<ClassInfo>)
  {
    forall i :: 0 <= i < |cs| ==> cs[i].isRoot.Some?
  }

  /** How the first candidate contributes to the roots and the others. */
  lemma ScanStep(cs: seq<ClassInfo>)
    requires cs != [] && AllAnswer(cs)
    ensures AllAnswer(cs[1..]) && cs[0].isRoot.Some?
    ensures cs[0].isRoot == Some(true) ==> Roots(cs) == [cs[0]] + Roots(cs[1..]) && Others(cs) == Others(cs[1..])
    ensures cs[0].isRoot == Some(false) ==> Roots(cs) == Roots(cs[1..]) && Others(cs) == [cs[0]] + Others(cs[1..])
  {
    forall i | 0 <= i < |cs[1..]|
      ensures cs[1..][i].isRoot.Some?
    {
      assert cs[1..][i] == cs[i + 1];
    }
  }

  /** Once the root is found, the loop ends with it first, followed by es and the other
    * candidates, when no further root follows; a further root fails. */
  lemma {:induction false} ScanFound(cs: seq<ClassInfo>, root: ClassInfo, es: seq<ClassInfo>)
    requires AllAnswer(cs)
    ensures Roots(cs) == [] ==> Scan(cs, Some(root), es) == Ok([root] + es + Others(cs))
    ensures Roots(cs) != [] ==> Scan(cs, Some(root), es) == Err(RootNotUnique)
    decreases |cs|
  {
    if cs == [] {
      assert [root] + es + [] == [root] + es;
    } else {
      ScanStep(cs);
      var c := cs[0];
      if !c.isRoot.value {
        assert Scan(cs, Some(root), es) == Scan(cs[1..], Some(root), es + [c]);
        ScanFound(cs[1..], root, es + [c]);
        assert [root] + (es + [c]) + Others(cs[1..]) == [root] + es + Others(cs);
      }
    }
  }

  /** From a state without a root, one root among the rest comes first, followed by es
    * and the other candidates. */
  lemma {:induction false} ScanOneRoot(cs: seq<ClassInfo>, es: seq<ClassInfo>)
    requires AllAnswer(cs) && |Roots(cs)| == 1
    ensures Scan(cs, None, es) == Ok([Roots(cs)[0]] + es + Others(cs))
    decreases |cs|
  {
    ScanStep(cs);
    var c := cs[0];
    if c.isRoot.value {
      assert Scan(cs, None, es) == Scan(cs[1..], Some(c), es);
      ScanFound(cs[1..], c, es);
    } else {
      assert Scan(cs, None, es) == Scan(cs[1..], None, es + [c]);
      ScanOneRoot(cs[1..], es + [c]);
      assert Roots(cs)[0] == Roots(cs[1..])[0];
      assert [Roots(cs)[0]] + (es + [c]) + Others(cs[1..]) == [Roots(cs)[0]] + es + Others(cs);
    }
  }

  /** Without any root the loop ends in the assertion that lists every candidate. */
  lemma {:induction false} ScanNoRoot(cs: seq<ClassInfo>, es: seq<ClassInfo>)
    requires AllAnswer(cs) && Roots(cs) == []
    ensures Scan(cs, None, es) == Err(NoRoot(es + Others(cs)))
    decreases |cs|
  {
    if cs == [] {
      assert es + [] == es;
    } else {
      ScanStep(cs);
      var c := cs[0];
      assert Roots(cs) == (if c.isRoot == Some(true) then [c] else []) + Roots(cs[1..]);
      assert c.isRoot == Some(c.isRoot.value) && !c.isRoot.value;
      assert Scan(cs, None, es) == Scan(cs[1..], None, es + [c]);
      ScanNoRoot(cs[1..], es + [c]);
      assert es + [c] + Others(cs[1..]) == es + Others(cs);
    }
  }

  /** With two roots or more the loop fails at the second. */
  lemma {:induction false} ScanTwoRoots(cs: seq<ClassInfo>, es: seq<ClassInfo>)
    requires AllAnswer(cs) && |Roots(cs)| >= 2
    ensures Scan(cs, None, es) == Err(RootNotUnique)
    decreases |cs|
  {
    ScanStep(cs);
    if cs[0].isRoot.value {
      ScanFound(cs[1..], cs[0], es);
    } else {
      ScanTwoRoots(cs[1..], es + [cs[0]]);
    }
  }

  /** get_etypes_core returns the unique root first and the other candidates after it in
    * the order of the dict, and fails when there is no root or more than one. */
  lemma EtypesCoreCases(gs: seq<(string, GlobalValue)>)
    requires AllAnswer(Candidates(gs))
    ensures |Roots(Candidates(gs))| == 1
            ==> EtypesCore(gs) == Ok([Roots(Candidates(gs))[0]] + Others(Candidates(gs)))
    ensures |Roots(Candidates(gs))| >= 2 ==> EtypesCore(gs) == Err(RootNotUnique)
    ensures Roots(Candidates(gs)) == [] ==> EtypesCore(gs) == Err(NoRoot(Others(Candidates(gs))))
  {
    var cs := Candidates(gs);
    if |Roots(cs)| == 1 {
      ScanOneRoot(cs, []);
      assert [Roots(cs)[0]] + [] + Others(cs) == [Roots(cs)[0]] + Others(cs);
    } else if |Roots(cs)| >= 2 {
      ScanTwoRoots(cs, []);
    } else {
      ScanNoRoot(cs, []);
      assert [] + Others(cs) == Others(cs);
    }
  }

  /** A first candidate without is_root fails with AttributeError. */
  lemma EtypesCoreNoIsRoot(gs: seq<(string, GlobalValue)>)
    requires Candidates(gs) != [] && Candidates(gs)[0].isRoot.None?
    ensures EtypesCore(gs) == Err(NoIsRoot(Candidates(gs)[0]))
  {
  }

  /** Entries that are no classes add no candidate. */
  lemma {:induction false} CandidatesSkip(pre: seq<(string, GlobalValue)>, gs: seq<(string, GlobalValue)>)
    requires forall i :: 0 <= i < |pre| ==> pre[i].1.NotAClass?
    ensures Candidates(pre + gs) == Candidates(gs)
    decreases |pre|
  {
    if pre != [] {
      assert (pre + gs)[1..] == pre[1..] + gs;
      assert (pre + gs)[0] == pre[0];
      CandidatesSkip(pre[1..], gs);
    } else {
      assert pre + gs == gs;
    }
  }

  /** Entries for classes the loop keeps, named after themselves. */
  function Entries(cs: seq<ClassInfo>): (gs: seq<(string, GlobalValue)>)
    ensures |gs| == |cs|
  {
    if cs == [] then [] else [(cs[0].name, AClass(cs[0]))] + Entries(cs[1..])
  }

  /** Classes with an etype attribute, other than TreeElement and not named after an
    * Expansion, are all candidates. */
  lemma {:induction false} CandidatesOfEntries(cs: seq<ClassInfo>)
    requires forall i :: 0 <= i < |cs| ==> Kept(cs[i])
    ensures Candidates(Entries(cs)) == cs
  {
    if cs != [] {
      var gs := Entries(cs);
      assert gs[0] == (cs[0].name, AClass(cs[0])) && gs[1..] == Entries(cs[1..]);
      CandidatesOfEntries(cs[1..]);
    }
  }

  /** Candidates whose is_root() all answer False: no roots, all others. */
  lemma {:induction false} NonRoots(cs: seq<ClassInfo>)
    requires forall i :: 0 <= i < |cs| ==> cs[i].isRoot == Some(false)
    ensures Roots(cs) == [] && Others(cs) == cs
  {
    if cs != [] {
      NonRoots(cs[1..]);
      assert [cs[0]] + cs[1..] == cs;
    }
  }

  /** A class the loop keeps when it is listed under its own name. */
  predicate Kept(c: ClassInfo)
  {
    c.hasEtype && !c.isTreeElement && !Contains(c.name, "Expansion")
  }

  /** A root followed by non-root classes comes out as it is. */
  lemma ScanRootFirst(cs: seq<ClassInfo>)
    requires cs != [] && cs[0].isRoot == Some(true)
    requires forall i :: 1 <= i < |cs| ==> cs[i].isRoot == Some(false)
    ensures Scan(cs, None, []) == Ok(cs)
  {
    var others := cs[1..];
    NonRoots(others);
    ScanFound(others, cs[0], []);
    assert [cs[0]] + [] + others == cs;
  }

  /** A module whose other globals are no classes and whose classes, each listed under its
    * own name, are a root followed by non-root kinds yields that root first and the other
    * classes in definition order (the test suite's dummy module: Law, then LawBody,
    * MainProvision and Part). */
  lemma {:induction false} EtypesCoreOfModule(attrs: seq<(string, GlobalValue)>, cs: seq<ClassInfo>)
    requires forall i :: 0 <= i < |attrs| ==> attrs[i].1.NotAClass?
    requires cs != [] && cs[0].isRoot == Some(true)
    requires forall i :: 1 <= i < |cs| ==> cs[i].isRoot == Some(false)
    requires forall i :: 0 <= i < |cs| ==> Kept(cs[i])
    ensures EtypesCore(attrs + Entries(cs)) == Ok(cs)
    decreases |attrs|
  {
    if attrs != [] {
      assert (attrs + Entries(cs))[1..] == attrs[1..] + Entries(cs);
      assert (attrs + Entries(cs))[0] == attrs[0];
      assert !Eligible(attrs[0].0, attrs[0].1);
      assert Candidates(attrs + Entries(cs)) == Candidates(attrs[1..] + Entries(cs));
      EtypesCoreOfModule(attrs[1..], cs);
    } else {
      assert attrs + Entries(cs) == Entries(cs);
      CandidatesOfEntries(cs);
      ScanRootFirst(cs);
    }
  }
}
