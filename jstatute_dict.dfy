// The dictionaries of jstatute_dict.py: a dictionary of statute sources filtered to
// reiki, the level index that maps the key of a node to the keys of the nodes one
// level further down, and the key prefix of the sentence dictionary.
module StatuteDicts {
  import opened Errors
  import opened Strings
  import opened Etypes
  import opened Lawdata
  import opened TreeNodes
  import opened TreeSearch
  import Sorting

  // ---------------------------------------------------------------------------
  // JStatuteDict
  // ---------------------------------------------------------------------------

  /** Whether a dictionary stores a source with the given law number: always without
    * only_reiki, and only for a reiki number with it. */
  predicate Admits(onlyReiki: bool, lawnum: string)
  {
    !onlyReiki || IsReikiNumber(lawnum)
  }

  /** With only_reiki a source is stored exactly when its law number names an
    * ordinance or a rule; sources of unset metadata and notices are dropped. */
  lemma AdmitsReikiOnly(lawnum: string)
    ensures Admits(false, lawnum)
    ensures Admits(true, lawnum) <==>
              (exists i :: OccursAt(lawnum, "条例", i)) || (exists i :: OccursAt(lawnum, "規則", i))
    ensures !Admits(true, "UNK") && !Admits(true, "告示")
  {
    IsReikiNumberIff(lawnum);
    NotReikiNumbers();
  }

  /** JStatuteDict: the sources are the values; the metadata of each is read when it
    * is stored. */
  class StatuteDict<V> {
    const onlyReiki: bool
    var body: map<string, V>
    /** The law number each stored source had when it was stored. */
    ghost var lawnums: map<string, string>

    /** Every stored source was admitted when it was stored. */
    ghost predicate Valid()
      reads this
    {
      body.Keys == lawnums.Keys &&
      forall k :: k in lawnums ==> Admits(onlyReiki, lawnums[k])
    }

    constructor(onlyReiki: bool)
      ensures Valid() && this.onlyReiki == onlyReiki && body == map[]
    {
      this.onlyReiki := onlyReiki;
      body := map[];
      lawnums := map[];
    }

    /** __setitem__: stores the source under the key unless only_reiki is set and its
      * metadata is not a reiki; an admitted source replaces what the key held. */
    method Set(key: string, val: V, lawdata: LawData)
      requires Valid()
      modifies this
      ensures Valid()
      ensures Admits(onlyReiki, lawdata.Lawnum()) ==> body == old(body)[key := val]
      ensures !Admits(onlyReiki, lawdata.Lawnum()) ==> body == old(body)
      ensures Len() == old(Len()) + (if Admits(onlyReiki, lawdata.Lawnum()) && key !in old(body) then 1 else 0)
    {
      if !onlyReiki || lawdata.IsReiki() {
        body := body[key := val];
        lawnums := lawnums[key := lawdata.Lawnum()];
      }
    }

    /** __getitem__: the stored source, a KeyError for a key never stored. */
    function Get(key: string): (r: Result<V>)
      reads this
      ensures r.Ok? <==> key in body
      ensures r.Ok? ==> r.value == body[key]
      ensures r.Err? ==> r.error == KeyError("'" + key + "'")
    {
      if key in body then Ok(body[key]) else Err(KeyError("'" + key + "'"))
    }

    /** __len__: the number of keys stored. */
    function Len(): (r: nat)
      reads this
      ensures r == |body.Keys|
    {
      |body|
    }
  }

  // ---------------------------------------------------------------------------
  // The key of a search result
  // ---------------------------------------------------------------------------

  /** Where `$` lets a match end: before a trailing newline, otherwise at the end. */
  function EndPos(s: string): (e: nat)
    ensures e <= |s|
  {
    if |s| > 0 && s[|s| - 1] == '\n' then |s| - 1 else |s|
  }

  /** The pattern \(.+?\)$ matches from index i: an opening parenthesis there, at
    * least one character that is not a newline, and a closing parenthesis where `$`
    * holds. */
  predicate OpensSuffix(s: string, i: nat)
  {
    i + 2 < EndPos(s) && s[i] == '(' && s[EndPos(s) - 1] == ')' &&
    forall j :: i < j < EndPos(s) - 1 ==> s[j] != '\n'
  }

  /** The leftmost index from i on where the pattern matches. */
  function FirstOpen(s: string, i: nat): Option<nat>
    decreases |s| - i
  {
    if i >= |s| then None
    else if OpensSuffix(s, i) then Some(i)
    else FirstOpen(s, i + 1)
  }

  /** re.sub(r"\(.+?\)$", "", s): the leftmost match is removed; what follows it is at
    * most the trailing newline, which has no further match. */
  function SubParenSuffix(s: string): string
  {
    FirstOpenIsLeftmost(s, 0);
    match FirstOpen(s, 0)
    case None => s
    case Some(i) => s[..i] + s[EndPos(s)..]
  }

  /** The search finds the leftmost match from i on, and None when there is none. */
  lemma {:induction false} FirstOpenIsLeftmost(s: string, i: nat)
    ensures FirstOpen(s, i).Some? ==> i <= FirstOpen(s, i).value && OpensSuffix(s, FirstOpen(s, i).value)
    ensures forall k :: i <= k && (FirstOpen(s, i).None? || k < FirstOpen(s, i).value) ==> !OpensSuffix(s, k)
    decreases |s| - i
  {
    if i < |s| && !OpensSuffix(s, i) {
      FirstOpenIsLeftmost(s, i + 1);
    }
  }

  lemma {:induction false} FirstOpenAt(s: string, i: nat, k: nat)
    requires i <= k && OpensSuffix(s, k)
    requires forall j :: i <= j < k ==> !OpensSuffix(s, j)
    ensures FirstOpen(s, i) == Some(k)
    decreases k - i
  {
    if i < k {
      FirstOpenAt(s, i + 1, k);
    }
  }

  /** The substitution strips a "(nums)" suffix from a name without parentheses. */
  lemma StripSegment(name: string, nums: string)
    requires forall j :: 0 <= j < |name| ==> name[j] != '('
    requires |nums| > 0 && forall j :: 0 <= j < |nums| ==> nums[j] != '\n'
    ensures SubParenSuffix(name + "(" + nums + ")") == name
  {
    var s := name + "(" + nums + ")";
    assert EndPos(s) == |s|;
    forall j | |name| < j < |s| - 1 ensures s[j] != '\n' {
      assert s[j] == nums[j - |name| - 1];
    }
    assert OpensSuffix(s, |name|);
    forall j | 0 <= j < |name| ensures !OpensSuffix(s, j) {
      assert s[j] == name[j];
    }
    FirstOpenAt(s, 0, |name|);
    assert s[..|name|] == name;
  }

  lemma IntToStringPlain(i: int)
    ensures |IntToString(i)| > 0
    ensures forall j :: 0 <= j < |IntToString(i)| ==> IntToString(i)[j] != '\n'
  {
    var s := NatToString(if i < 0 then -i else i);
    assert AllDigits(s);
    if i < 0 {
      assert IntToString(i) == "-" + s;
      forall j | 0 < j < |IntToString(i)| ensures IntToString(i)[j] != '\n' {
        assert IntToString(i)[j] == s[j - 1];
      }
    }
  }

  /** A node a search yields, with its code. */
  datatype Found = Found(node: Node, code: string)

  /** The nodes a search yields, in order, each with its code. */
  function Coded(rs: seq<Node>, rootCode: string): (fs: seq<Found>)
    ensures |fs| == |rs|
  {
    if rs == [] then []
    else Coded(rs[..|rs| - 1], rootCode) + [Found(rs[|rs| - 1], Code(rs[|rs| - 1], rootCode))]
  }

  lemma {:induction false} CodedIndex(rs: seq<Node>, rootCode: string, j: nat)
    requires j < |rs|
    ensures Coded(rs, rootCode)[j] == Found(rs[j], Code(rs[j], rootCode))
  {
    if j < |rs| - 1 {
      var init := rs[..|rs| - 1];
      CodedIndex(init, rootCode, j);
      assert init[j] == rs[j];
    }
  }

  /** The key _set_tree gives a node of the given code that the search for a level
    * yields: the code when its last segment, without its "(…)" suffix, names the
    * level's class, and otherwise the placeholder code + "/Level(1)" of a level the
    * document skips. */
  function NextKey(code: string, target: Kind): string
  {
    if SubParenSuffix(LastSegment(code)) != ClassName(target) then code + "/" + ClassName(target) + "(1)"
    else code
  }

  /** Below the root, a node is keyed by its own code exactly when it is of the level's
    * kind, and by a placeholder below its code otherwise. */
  lemma NextKeyOfNode(r: Node, target: Kind, rootCode: string)
    requires |Path(r)| > 1
    ensures NextKey(Code(r, rootCode), target)
            == if NodeKind(r) == target then Code(r, rootCode) else Code(r, rootCode) + "/" + ClassName(target) + "(1)"
  {
    var nums := IntToString(NodeNum(r).MainNum());
    CodeLastSegment(r, rootCode);
    ClassNameChars(NodeKind(r));
    IntToStringPlain(NodeNum(r).MainNum());
    StripSegment(ClassName(NodeKind(r)), nums);
    ClassNameInjective(NodeKind(r), target);
  }

  /** The keys of the nodes found, in order. */
  function KeysOf(fs: seq<Found>, target: Kind): (ks: seq<string>)
    ensures |ks| == |fs|
  {
    if fs == [] then [] else KeysOf(fs[..|fs| - 1], target) + [NextKey(fs[|fs| - 1].code, target)]
  }

  lemma {:induction false} KeysOfIndex(fs: seq<Found>, target: Kind, j: nat)
    requires j < |fs|
    ensures KeysOf(fs, target)[j] == NextKey(fs[j].code, target)
  {
    if j < |fs| - 1 {
      var init := fs[..|fs| - 1];
      KeysOfIndex(init, target, j);
      assert init[j] == fs[j];
    }
  }

  // ---------------------------------------------------------------------------
  // JStatutreeKVSDict
  // ---------------------------------------------------------------------------

  /** The store after _set_tree(key, n, levels): for each node the search for the
    * first level yields, in order, its own subtree is indexed with the remaining
    * levels; then the key is mapped to the list of their keys. */
  function Stored(store: map<string, seq<string>>, key: string, n: Node, levels: seq<Kind>, rootCode: string)
    : (s: map<string, seq<string>>)
    ensures levels == [] ==> s == store
    ensures levels != [] ==> key in s && s[key] == KeysOf(Coded(Search(n, levels[0], false), rootCode), levels[0])
    decreases |levels|, 1
  {
    if levels == [] then store
    else
      var found := Coded(Search(n, levels[0], false), rootCode);
      StoredAll(store, found, levels, rootCode)[key := KeysOf(found, levels[0])]
  }

  /** The recursive calls of the loop in _set_tree, over the remaining nodes found. */
  function StoredAll(store: map<string, seq<string>>, fs: seq<Found>, levels: seq<Kind>, rootCode: string)
    : map<string, seq<string>>
    requires levels != []
    decreases |levels|, 0, |fs|
  {
    if fs == [] then store
    else
      var s := Stored(store, NextKey(fs[0].code, levels[0]), fs[0].node, levels[1..], rootCode);
      StoredAll(s, fs[1..], levels, rootCode)
  }

  /** The keys _set_tree(key, n, levels) writes. */
  function Written(key: string, n: Node, levels: seq<Kind>, rootCode: string): set<string>
    decreases |levels|, 1
  {
    if levels == [] then {}
    else {key} + WrittenAll(Coded(Search(n, levels[0], false), rootCode), levels, rootCode)
  }

  function WrittenAll(fs: seq<Found>, levels: seq<Kind>, rootCode: string): set<string>
    requires levels != []
    decreases |levels|, 0, |fs|
  {
    if fs == [] then {}
    else Written(NextKey(fs[0].code, levels[0]), fs[0].node, levels[1..], rootCode)
         + WrittenAll(fs[1..], levels, rootCode)
  }

  /** _set_tree writes the keys it names and leaves every other entry of the store as
    * it was. */
  lemma {:induction false} StoredFrame(store: map<string, seq<string>>, key: string, n: Node, levels: seq<Kind>,
                                       rootCode: string)
    ensures Stored(store, key, n, levels, rootCode).Keys == store.Keys + Written(key, n, levels, rootCode)
    ensures forall k :: k in store && k !in Written(key, n, levels, rootCode) ==>
              Stored(store, key, n, levels, rootCode)[k] == store[k]
    decreases |levels|, 1
  {
    if levels != [] {
      var found := Coded(Search(n, levels[0], false), rootCode);
      var before := StoredAll(store, found, levels, rootCode);
      StoredAllFrame(store, found, levels, rootCode);
      assert Stored(store, key, n, levels, rootCode) == before[key := KeysOf(found, levels[0])];
      assert Written(key, n, levels, rootCode) == {key} + WrittenAll(found, levels, rootCode);
    }
  }

  lemma {:induction false} StoredAllFrame(store: map<string, seq<string>>, fs: seq<Found>, levels: seq<Kind>,
                                          rootCode: string)
    requires levels != []
    ensures StoredAll(store, fs, levels, rootCode).Keys == store.Keys + WrittenAll(fs, levels, rootCode)
    ensures forall k :: k in store && k !in WrittenAll(fs, levels, rootCode) ==>
              StoredAll(store, fs, levels, rootCode)[k] == store[k]
    decreases |levels|, 0, |fs|
  {
    if fs != [] {
      var k0 := NextKey(fs[0].code, levels[0]);
      var s := Stored(store, k0, fs[0].node, levels[1..], rootCode);
      StoredFrame(store, k0, fs[0].node, levels[1..], rootCode);
      StoredAllFrame(s, fs[1..], levels, rootCode);
    }
  }

  /** The entry _set_tree writes for a search lists, for each node below the root that
    * the search yields, its code when it is of the level's kind and the placeholder
    * below its code otherwise. */
  lemma SearchResultKeys(n: Node, target: Kind, rootCode: string)
    ensures var rs := Search(n, target, false);
            forall j :: 0 <= j < |rs| && |Path(rs[j])| > 1 ==>
              KeysOf(Coded(rs, rootCode), target)[j]
              == if NodeKind(rs[j]) == target then Code(rs[j], rootCode)
                 else Code(rs[j], rootCode) + "/" + ClassName(target) + "(1)"
  {
    var rs := Search(n, target, false);
    forall j | 0 <= j < |rs| && |Path(rs[j])| > 1
      ensures KeysOf(Coded(rs, rootCode), target)[j]
              == if NodeKind(rs[j]) == target then Code(rs[j], rootCode)
                 else Code(rs[j], rootCode) + "/" + ClassName(target) + "(1)"
    {
      KeysOfIndex(Coded(rs, rootCode), target, j);
      CodedIndex(rs, rootCode, j);
      NextKeyOfNode(rs[j], target, rootCode);
    }
  }

  /** When every child of a node below the root is deeper than a level of another
    * (LEVEL, SUBLEVEL), _set_tree lists one placeholder key below the node per child. */
  lemma PlaceholderKeys(n: Node, target: Kind, rootCode: string)
    requires |Path(n)| > 1
    requires Key(target) != Key(NodeKind(n)) && Level(target) >= Level(NodeKind(n))
    requires forall c :: c in Children(n) ==> Level(NodeKind(c)) > Level(target)
    ensures KeysOf(Coded(Search(n, target, false), rootCode), target)
            == seq(|Children(n)|, _ => Code(n, rootCode) + "/" + ClassName(target) + "(1)")
  {
    SearchOvershoot(n, target);
    NextKeyOfNode(n, target, rootCode);
    assert NodeKind(n) != target;
    KeysOfRepeated(Search(n, target, false), n, target, rootCode);
  }

  /** A search result that repeats one node gets that node's key at every position. */
  lemma KeysOfRepeated(rs: seq<Node>, n: Node, target: Kind, rootCode: string)
    requires forall j :: 0 <= j < |rs| ==> rs[j] == n
    ensures KeysOf(Coded(rs, rootCode), target) == seq(|rs|, _ => NextKey(Code(n, rootCode), target))
  {
    forall j | 0 <= j < |rs|
      ensures KeysOf(Coded(rs, rootCode), target)[j] == NextKey(Code(n, rootCode), target)
    {
      KeysOfIndex(Coded(rs, rootCode), target, j);
      CodedIndex(rs, rootCode, j);
    }
  }

  /** JStatutreeKVSDict: an index over the store, keyed by the code of the tree's
    * metadata, with the levels kept sorted by (LEVEL, SUBLEVEL). */
  class TreeIndex {
    const onlyReiki: bool
    const levels: seq<Kind>
    var store: map<string, seq<string>>

    /** __init__ over a store that already holds the given entries. */
    constructor(levels: seq<Kind>, onlyReiki: bool, initial: map<string, seq<string>>)
      ensures this.levels == SortEtypes(levels) && this.onlyReiki == onlyReiki && store == initial
      ensures Sorting.SortedBy(this.levels, Key) && multiset(this.levels) == multiset(levels)
    {
      this.levels := SortEtypes(levels);
      this.onlyReiki := onlyReiki;
      store := initial;
      SortEtypesCorrect(levels);
    }

    /** __setitem__: only a root may be set; its tree is indexed when the dictionary
      * admits its metadata. */
    method Set(key: string, root: Node, lawdata: LawData, rootCode: string) returns (err: Option<Error>)
      modifies this
      ensures NodeKind(root) != Law ==>
                err == Some(AssertionError("You cannot set non-root item ot JStatutreeKVSDict.")) && store == old(store)
      ensures NodeKind(root) == Law && Admits(onlyReiki, lawdata.Lawnum()) ==>
                err == None && store == Stored(old(store), key, root, levels, rootCode)
      ensures NodeKind(root) == Law && !Admits(onlyReiki, lawdata.Lawnum()) ==> err == None && store == old(store)
    {
      if NodeKind(root) != Law {
        return Some(AssertionError("You cannot set non-root item ot JStatutreeKVSDict."));
      }
      err := None;
      if !onlyReiki || lawdata.IsReiki() {
        SetTree(key, root, levels, rootCode);
      }
    }

    /** set_from_reader for a reader whose metadata is a plain LawData, whose code is its
      * law number. */
    method SetFromReader(lawdata: LawData, root: Node, rootCode: string) returns (err: Option<Error>)
      modifies this
      ensures NodeKind(root) == Law && Admits(onlyReiki, lawdata.Lawnum()) ==>
                err == None && store == Stored(old(store), lawdata.Code(), root, levels, rootCode)
      ensures NodeKind(root) == Law && !Admits(onlyReiki, lawdata.Lawnum()) ==> err == None && store == old(store)
      ensures NodeKind(root) != Law ==> err.Some? && store == old(store)
    {
      err := Set(lawdata.Code(), root, lawdata, rootCode);
    }

    /** set_from_reader for a reader whose metadata is a ReikiData, as the XML reader's
      * is: the key is the code property, the joined "pp/mmmmmm/ffff" (memoised by the
      * read), and the filter is the law number the ReikiData inherits. */
    method SetFromReikiReader(rd: ReikiData, root: Node, rootCode: string) returns (err: Option<Error>)
      modifies this, rd
      ensures NodeKind(root) == Law && Admits(onlyReiki, rd.base.Lawnum()) ==>
                err == None && store == Stored(old(store), old(rd.CodeNow()), root, levels, rootCode)
      ensures NodeKind(root) == Law && !Admits(onlyReiki, rd.base.Lawnum()) ==> err == None && store == old(store)
      ensures NodeKind(root) != Law ==> err.Some? && store == old(store)
      ensures rd.cachedCode == old(rd.CodeNow()) && rd.CodeNow() == old(rd.CodeNow())
      ensures rd.prefectureCode == old(rd.prefectureCode) && rd.municipalityCode == old(rd.municipalityCode)
      ensures rd.fileCode == old(rd.fileCode) && rd.cachedId == old(rd.cachedId)
    {
      var key := rd.Code();
      err := Set(key, root, rd.base, rootCode);
    }

    /** _set_tree: the results of the search for the first level are keyed in order,
      * each subtree is indexed with the remaining levels as soon as its key is known,
      * and the key is mapped to the list of keys last. */
    method SetTree(key: string, n: Node, ls: seq<Kind>, rootCode: string)
      modifies this
      ensures store == Stored(old(store), key, n, ls, rootCode)
      decreases |ls|, 1
    {
      if |ls| == 0 {
        return;
      }
      var found := DepthFirstSearch(n, ls[0], false);
      var nextKeys := SetResults(Coded(found, rootCode), ls, rootCode);
      store := store[key := nextKeys];
    }

    /** The loop of _set_tree over the nodes found: each is keyed, its key recorded, and
      * its subtree indexed with the remaining levels. */
    method SetResults(fs: seq<Found>, ls: seq<Kind>, rootCode: string) returns (nextKeys: seq<string>)
      requires ls != []
      modifies this
      ensures nextKeys == KeysOf(fs, ls[0])
      ensures store == StoredAll(old(store), fs, ls, rootCode)
      decreases |ls|, 0
    {
      nextKeys := [];
      var i := 0;
      while i < |fs|
        invariant 0 <= i <= |fs|
        invariant nextKeys == KeysOf(fs[..i], ls[0])
        invariant StoredAll(store, fs[i..], ls, rootCode) == StoredAll(old(store), fs, ls, rootCode)
      {
        var next := NextKey(fs[i].code, ls[0]);
        assert fs[..i + 1][..i] == fs[..i];
        nextKeys := nextKeys + [next];
        assert fs[i..][1..] == fs[i + 1..];
        SetTree(next, fs[i].node, ls[1..], rootCode);
        i := i + 1;
      }
      assert fs[..i] == fs;
    }
  }

  // ---------------------------------------------------------------------------
  // JSSentenceKVSDict
  // ---------------------------------------------------------------------------

  /** The level a sentence dictionary is opened for: a name or a kind. */
  datatype LevelArg = LevelName(name: string) | LevelClass(kind: Kind)

  /** The key prefix: "sentence-", followed by the level's name and "-" when a level is given. */
  function SentencePrefix(level: Option<LevelArg>): (r: string)
    ensures StartsWith(r, "sentence-")
    ensures level.None? <==> r == "sentence-"
  {
    match level
    case None => "sentence-"
    case Some(LevelName(s)) => "sentence-" + s + "-"
    case Some(LevelClass(k)) => "sentence-" + ClassName(k) + "-"
  }

  /** A kind and its class name select the same keys, and different kinds select
    * different prefixes. */
  lemma LevelPrefixes(a: Kind, b: Kind)
    ensures SentencePrefix(Some(LevelClass(a))) == SentencePrefix(Some(LevelName(ClassName(a))))
    ensures SentencePrefix(Some(LevelClass(a))) == SentencePrefix(Some(LevelClass(b))) <==> a == b
  {
    var pa, pb := SentencePrefix(Some(LevelClass(a))), SentencePrefix(Some(LevelClass(b)));
    if pa == pb {
      assert ClassName(a) == pa[9..|pa| - 1];
      assert ClassName(b) == pb[9..|pb| - 1];
      ClassNameInjective(a, b);
    }
  }
}
