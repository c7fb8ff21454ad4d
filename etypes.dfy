// The table of statute element kinds: jstatutree/etypes.py. Every kind is a
// class there with the class attributes LEVEL, SUBLEVEL (default 0),
// PARENT_CANDIDATES and JNAME (default ""); here a kind is a constructor and each
// attribute a function of it.
module Etypes {
  import opened Errors
  import opened Strings
  import Sorting

  datatype Kind =
    | Law | LawBody | MainProvision | Part | Chapter | Section | Subsection | Division
    | Article | ArticleCaption | Paragraph | ParagraphCaption | ParagraphSentence
    | Item | ItemSentence
    | Subitem1 | Subitem1Sentence | Subitem2 | Subitem2Sentence | Subitem3 | Subitem3Sentence
    | Subitem4 | Subitem4Sentence | Subitem5 | Subitem5Sentence
    | Column | Sentence
    | UnknownElement

  /** LEVEL: the depth of the kind in the statute hierarchy. */
  function Level(k: Kind): int
  {
    match k
    case Law => 0
    case LawBody => 1
    case MainProvision => 2
    case Part => 3
    case Chapter => 4
    case Section => 5
    case Subsection => 6
    case Division => 7
    case Article => 8
    case ArticleCaption => 9
    case Paragraph => 9
    case ParagraphCaption => 10
    case ParagraphSentence => 10
    case Item => 10
    case ItemSentence => 11
    case Subitem1 => 11
    case Subitem1Sentence => 12
    case Subitem2 => 12
    case Subitem2Sentence => 13
    case Subitem3 => 13
    case Subitem3Sentence => 14
    case Subitem4 => 14
    case Subitem4Sentence => 15
    case Subitem5 => 15
    case Subitem5Sentence => 16
    case Column => 17
    case Sentence => 18
    case UnknownElement => 0
  }

  /** SUBLEVEL: orders kinds that share a LEVEL; captions and sentences come first. */
  function SubLevel(k: Kind): int
  {
    match k
    case ArticleCaption => -1
    case ParagraphCaption => -2
    case ParagraphSentence => -1
    case ItemSentence => -1
    case Subitem1Sentence => -1
    case Subitem2Sentence => -1
    case Subitem3Sentence => -1
    case Subitem4Sentence => -1
    case Subitem5Sentence => -1
    case _ => 0
  }

  /** The sort key of sort_etypes. */
  function Key(k: Kind): (int, int)
  {
    (Level(k), SubLevel(k))
  }

  /** PARENT_CANDIDATES, in the order of the tuple. */
  function ParentCandidates(k: Kind): seq<Kind>
  {
    match k
    case Law => []
    case LawBody => [Law]
    case MainProvision => [LawBody]
    case Part => [MainProvision]
    case Chapter => [MainProvision, Part]
    case Section => [Chapter]
    case Subsection => [Section]
    case Division => [Subsection]
    case Article => [MainProvision, Part, Chapter, Section, Subsection, Division]
    case ArticleCaption => [Article]
    case Paragraph => [MainProvision, Article]
    case ParagraphCaption => [Paragraph]
    case ParagraphSentence => [Paragraph]
    case Item => [Paragraph]
    case ItemSentence => [Item]
    case Subitem1 => [Item]
    case Subitem1Sentence => [Subitem1]
    case Subitem2 => [Subitem1]
    case Subitem2Sentence => [Subitem2]
    case Subitem3 => [Subitem2]
    case Subitem3Sentence => [Subitem3]
    case Subitem4 => [Subitem3]
    case Subitem4Sentence => [Subitem4]
    case Subitem5 => [Subitem4]
    case Subitem5Sentence => [Subitem5]
    case Column =>
      [ParagraphSentence, ItemSentence, Subitem1Sentence, Subitem2Sentence,
       Subitem3Sentence, Subitem4Sentence, Subitem5Sentence]
    case Sentence =>
      [Column, ParagraphSentence, ItemSentence, Subitem1Sentence, Subitem2Sentence,
       Subitem3Sentence, Subitem4Sentence, Subitem5Sentence]
    case UnknownElement => []
  }

  /** JNAME: the template of an element's Japanese name. */
  function JName(k: Kind): string
  {
    match k
    case Part => "第{num}編"
    case Chapter => "第{num}章"
    case Section => "第{num}節"
    case Subsection => "第{num}款"
    case Division => "第{num}目"
    case Article => "第{num}条{branch}"
    case ArticleCaption => "条見出し"
    case Paragraph => "第{num}項"
    case ParagraphCaption => "項見出し"
    case Item => "第{num}号{branch}"
    case Subitem1 => "{num}号細分{branch}"
    case Subitem2 => "{num}号細々分{branch}"
    case Subitem3 => "{num}号細々々分{branch}"
    case Subitem4 => "{num}号細々々々分{branch}"
    case Subitem5 => "{num}号細々々々々分{branch}"
    case Sentence => "第{num}文"
    case _ => ""
  }

  /** The class name (__name__) of the kind. */
  function ClassName(k: Kind): string
  {
    match k
    case Law => "Law"
    case LawBody => "LawBody"
    case MainProvision => "MainProvision"
    case Part => "Part"
    case Chapter => "Chapter"
    case Section => "Section"
    case Subsection => "Subsection"
    case Division => "Division"
    case Article => "Article"
    case ArticleCaption => "ArticleCaption"
    case Paragraph => "Paragraph"
    case ParagraphCaption => "ParagraphCaption"
    case ParagraphSentence => "ParagraphSentence"
    case Item => "Item"
    case ItemSentence => "ItemSentence"
    case Subitem1 => "Subitem1"
    case Subitem1Sentence => "Subitem1Sentence"
    case Subitem2 => "Subitem2"
    case Subitem2Sentence => "Subitem2Sentence"
    case Subitem3 => "Subitem3"
    case Subitem3Sentence => "Subitem3Sentence"
    case Subitem4 => "Subitem4"
    case Subitem4Sentence => "Subitem4Sentence"
    case Subitem5 => "Subitem5"
    case Subitem5Sentence => "Subitem5Sentence"
    case Column => "Column"
    case Sentence => "Sentence"
    case UnknownElement => "UnknownElement"
  }

  /** The etype property of an element of the kind: its class name, except 'UNK' for
    * UnknownElement. */
  function Etype(k: Kind): (r: string)
    ensures k != UnknownElement ==> r == ClassName(k)
  {
    if k == UnknownElement then "UNK" else ClassName(k)
  }

  /** isinstance(x, k.PARENT_CANDIDATES) for an element x of kind p: the kinds do not
    * subclass each other, so this is membership. */
  predicate IsParentCandidate(p: Kind, k: Kind)
  {
    p in ParentCandidates(k)
  }

  /** ETYPES, in the order of the list. */
  const ETYPES: seq<Kind> :=
    [Law, LawBody, MainProvision, Part, Chapter, Section, Subsection, Division,
     Article, ArticleCaption, Paragraph, ParagraphCaption, ParagraphSentence,
     Item, ItemSentence, Subitem1, Subitem1Sentence, Subitem2, Subitem2Sentence,
     Subitem3, Subitem3Sentence, Subitem4, Subitem4Sentence, Subitem5, Subitem5Sentence,
     Column, Sentence]

  /** {e.__name__: e for e in ks}: a later kind overwrites an earlier one of the same name. */
  function NameDict(ks: seq<Kind>): (d: map<string, Kind>)
    ensures forall name :: name in d <==> exists i :: 0 <= i < |ks| && ClassName(ks[i]) == name
    ensures forall name :: name in d ==> ClassName(d[name]) == name
  {
    if ks == [] then map[]
    else
      var init := NameDict(ks[..|ks| - 1]);
      assert forall i :: 0 <= i < |ks| - 1 ==> ks[..|ks| - 1][i] == ks[i];
      init[ClassName(ks[|ks| - 1]) := ks[|ks| - 1]]
  }

  function EtypesDict(): map<string, Kind>
  {
    NameDict(ETYPES)
  }

  /** What get_etypes returns: the whole list, or one kind. */
  datatype Lookup = AllKinds(kinds: seq<Kind>) | OneKind(kind: Kind)

  /** get_etypes(name): a missing or empty name gives ETYPES; any other name the kind
    * of that class name, defaulting to UnknownElement. */
  function GetEtypes(name: Option<string>): (r: Lookup)
    ensures (name.None? || name == Some("")) <==> r == AllKinds(ETYPES)
  {
    if name.None? || name.value == "" then AllKinds(ETYPES)
    else if name.value in EtypesDict() then OneKind(EtypesDict()[name.value])
    else OneKind(UnknownElement)
  }

  /** The kind element_factory(name, ...) instantiates; with an empty name
    * get_etypes returns the list, and calling it is a TypeError. */
  function FactoryKind(name: string): (r: Result<Kind>)
    ensures name == "" <==> r.Err?
    ensures r.Err? ==> r.error.TypeError?
  {
    match GetEtypes(Some(name))
    case AllKinds(_) => Err(TypeError("'list' object is not callable"))
    case OneKind(k) => Ok(k)
  }

  /** sort_etypes: sorted by (LEVEL, SUBLEVEL). */
  function SortEtypes(ks: seq<Kind>): seq<Kind>
  {
    Sorting.SortBy(ks, Key)
  }

  // ---------------------------------------------------------------------------
  // Properties of the table
  // ---------------------------------------------------------------------------

  /** The kind whose class name is name, if any: the inverse of ClassName. */
  /** The one kind whose class name could be name, told apart by the first character,
    * the length and, among the Subitem classes, the eighth character. */
  function Candidate(name: string): Option<Kind>
  {
    if |name| == 0 then None
    else if name[0] == 'L' && |name| == 3 then Some(Law)
    else if name[0] == 'L' && |name| == 7 then Some(LawBody)
    else if name[0] == 'M' && |name| == 13 then Some(MainProvision)
    else if name[0] == 'P' && |name| == 4 then Some(Part)
    else if name[0] == 'C' && |name| == 7 then Some(Chapter)
    else if name[0] == 'S' && |name| == 7 then Some(Section)
    else if name[0] == 'S' && |name| == 10 then Some(Subsection)
    else if name[0] == 'D' && |name| == 8 then Some(Division)
    else if name[0] == 'A' && |name| == 7 then Some(Article)
    else if name[0] == 'A' && |name| == 14 then Some(ArticleCaption)
    else if name[0] == 'P' && |name| == 9 then Some(Paragraph)
    else if name[0] == 'P' && |name| == 16 then Some(ParagraphCaption)
    else if name[0] == 'P' && |name| == 17 then Some(ParagraphSentence)
    else if name[0] == 'I' && |name| == 4 then Some(Item)
    else if name[0] == 'I' && |name| == 12 then Some(ItemSentence)
    else if name[0] == 'S' && |name| == 8 && name[7] == '1' then Some(Subitem1)
    else if name[0] == 'S' && |name| == 8 && name[7] == '2' then Some(Subitem2)
    else if name[0] == 'S' && |name| == 8 && name[7] == '3' then Some(Subitem3)
    else if name[0] == 'S' && |name| == 8 && name[7] == '4' then Some(Subitem4)
    else if name[0] == 'S' && |name| == 8 && name[7] == '5' then Some(Subitem5)
    else if name[0] == 'S' && |name| == 8 && name[7] == 'e' then Some(Sentence)
    else if name[0] == 'S' && |name| == 16 && name[7] == '1' then Some(Subitem1Sentence)
    else if name[0] == 'S' && |name| == 16 && name[7] == '2' then Some(Subitem2Sentence)
    else if name[0] == 'S' && |name| == 16 && name[7] == '3' then Some(Subitem3Sentence)
    else if name[0] == 'S' && |name| == 16 && name[7] == '4' then Some(Subitem4Sentence)
    else if name[0] == 'S' && |name| == 16 && name[7] == '5' then Some(Subitem5Sentence)
    else if name[0] == 'C' && |name| == 6 then Some(Column)
    else if name[0] == 'U' && |name| == 14 then Some(UnknownElement)
    else None
  }

  /** The kind whose class name is name, if any. */
  function KindNamed(name: string): (r: Option<Kind>)
    ensures r.Some? ==> ClassName(r.value) == name
  {
    var c := Candidate(name);
    if c.Some? && ClassName(c.value) == name then c else None
  }

  lemma KindNamedClassName(k: Kind)
    ensures KindNamed(ClassName(k)) == Some(k)
  {
    match k
    case Law | LawBody | MainProvision | Part => KindNamedClassNamePart1(k);
    case Chapter | Section | Subsection | Division => KindNamedClassNamePart2(k);
    case Article | ArticleCaption | Paragraph | ParagraphCaption => KindNamedClassNamePart3(k);
    case ParagraphSentence | Item | ItemSentence | Subitem1 => KindNamedClassNamePart4(k);
    case Subitem1Sentence | Subitem2 | Subitem2Sentence | Subitem3 => KindNamedClassNamePart5(k);
    case Subitem3Sentence | Subitem4 | Subitem4Sentence | Subitem5 => KindNamedClassNamePart6(k);
    case Subitem5Sentence | Column | Sentence | UnknownElement => KindNamedClassNamePart7(k);
  }

  lemma KindNamedClassNamePart1(k: Kind)
    requires k == Law || k == LawBody || k == MainProvision || k == Part
    ensures KindNamed(ClassName(k)) == Some(k)
  {
  }

  lemma KindNamedClassNamePart2(k: Kind)
    requires k == Chapter || k == Section || k == Subsection || k == Division
    ensures KindNamed(ClassName(k)) == Some(k)
  {
  }

  lemma KindNamedClassNamePart3(k: Kind)
    requires k == Article || k == ArticleCaption || k == Paragraph || k == ParagraphCaption
    ensures KindNamed(ClassName(k)) == Some(k)
  {
  }

  lemma KindNamedClassNamePart4(k: Kind)
    requires k == ParagraphSentence || k == Item || k == ItemSentence || k == Subitem1
    ensures KindNamed(ClassName(k)) == Some(k)
  {
  }

  lemma KindNamedClassNamePart5(k: Kind)
    requires k == Subitem1Sentence || k == Subitem2 || k == Subitem2Sentence || k == Subitem3
    ensures KindNamed(ClassName(k)) == Some(k)
  {
  }

  lemma KindNamedClassNamePart6(k: Kind)
    requires k == Subitem3Sentence || k == Subitem4 || k == Subitem4Sentence || k == Subitem5
    ensures KindNamed(ClassName(k)) == Some(k)
  {
  }

  lemma KindNamedClassNamePart7(k: Kind)
    requires k == Subitem5Sentence || k == Column || k == Sentence || k == UnknownElement
    ensures KindNamed(ClassName(k)) == Some(k)
  {
  }

  lemma ClassNameInjective(a: Kind, b: Kind)
    ensures ClassName(a) == ClassName(b) <==> a == b
  {
    KindNamedClassName(a);
    KindNamedClassName(b);
  }

  /** ETYPES lists every kind but UnknownElement, each once. */
  lemma EtypesMembers(k: Kind)
    ensures k in ETYPES <==> k != UnknownElement
  {
    if k == UnknownElement {
      UnknownElementNotListed();
    } else {
      var i := EtypeIndex(k);
      if i < 7 {
        EtypeIndexAt1(k);
      } else if i < 14 {
        EtypeIndexAt2(k);
      } else if i < 21 {
        EtypeIndexAt3(k);
      } else {
        EtypeIndexAt4(k);
      }
    }
  }

  lemma UnknownElementNotListed()
    ensures UnknownElement !in ETYPES
  {
  }

  /** The position of a listed kind in ETYPES. */
  function EtypeIndex(k: Kind): nat
  {
    match k
    case Law => 0
    case LawBody => 1
    case MainProvision => 2
    case Part => 3
    case Chapter => 4
    case Section => 5
    case Subsection => 6
    case Division => 7
    case Article => 8
    case ArticleCaption => 9
    case Paragraph => 10
    case ParagraphCaption => 11
    case ParagraphSentence => 12
    case Item => 13
    case ItemSentence => 14
    case Subitem1 => 15
    case Subitem1Sentence => 16
    case Subitem2 => 17
    case Subitem2Sentence => 18
    case Subitem3 => 19
    case Subitem3Sentence => 20
    case Subitem4 => 21
    case Subitem4Sentence => 22
    case Subitem5 => 23
    case Subitem5Sentence => 24
    case Column => 25
    case Sentence => 26
    case UnknownElement => 27
  }

  lemma EtypeIndexAt1(k: Kind)
    requires k == Law || k == LawBody || k == MainProvision || k == Part || k == Chapter || k == Section || k == Subsection
    ensures EtypeIndex(k) < |ETYPES| && ETYPES[EtypeIndex(k)] == k
  {
  }

  lemma EtypeIndexAt2(k: Kind)
    requires k == Division || k == Article || k == ArticleCaption || k == Paragraph || k == ParagraphCaption || k == ParagraphSentence || k == Item
    ensures EtypeIndex(k) < |ETYPES| && ETYPES[EtypeIndex(k)] == k
  {
  }

  lemma EtypeIndexAt3(k: Kind)
    requires k == ItemSentence || k == Subitem1 || k == Subitem1Sentence || k == Subitem2 || k == Subitem2Sentence || k == Subitem3 || k == Subitem3Sentence
    ensures EtypeIndex(k) < |ETYPES| && ETYPES[EtypeIndex(k)] == k
  {
  }

  lemma EtypeIndexAt4(k: Kind)
    requires k == Subitem4 || k == Subitem4Sentence || k == Subitem5 || k == Subitem5Sentence || k == Column || k == Sentence
    ensures EtypeIndex(k) < |ETYPES| && ETYPES[EtypeIndex(k)] == k
  {
  }

  /** The class names of ETYPES are pairwise distinct. */
  lemma ClassNamesDistinct()
    ensures forall i, j :: 0 <= i < j < |ETYPES| ==> ClassName(ETYPES[i]) != ClassName(ETYPES[j])
  {
    EtypesKeysDistinct();
    forall i, j | 0 <= i < j < |ETYPES| ensures ClassName(ETYPES[i]) != ClassName(ETYPES[j]) {
      ClassNameInjective(ETYPES[i], ETYPES[j]);
    }
  }

  /** ETYPES_DICT maps each kind's class name to that kind. */
  lemma EtypesDictMapsNames(k: Kind)
    requires k != UnknownElement
    ensures ClassName(k) in EtypesDict() && EtypesDict()[ClassName(k)] == k
  {
    EtypesMembers(k);
    var i :| 0 <= i < |ETYPES| && ETYPES[i] == k;
    var d := EtypesDict();
    assert ClassName(ETYPES[i]) in d;
    ClassNameInjective(d[ClassName(k)], k);
  }

  /** get_etypes(name) for a non-empty name: the kind of that class name, and
    * UnknownElement for any other name. */
  lemma GetEtypesByName(name: string)
    requires name != ""
    ensures KindNamed(name).Some? ==> GetEtypes(Some(name)) == OneKind(KindNamed(name).value)
    ensures KindNamed(name).None? ==> GetEtypes(Some(name)) == OneKind(UnknownElement)
  {
    var d := EtypesDict();
    if name in d {
      ClassNameInjective(d[name], d[name]);
      KindNamedClassName(d[name]);
    } else if KindNamed(name).Some? {
      var k := KindNamed(name).value;
      if k != UnknownElement {
        EtypesDictMapsNames(k);
      }
    }
  }

  /** UnknownElement: LEVEL 0, no parent candidates, etype 'UNK', and not in ETYPES. */
  lemma UnknownElementShape()
    ensures Level(UnknownElement) == 0 && ParentCandidates(UnknownElement) == []
    ensures Etype(UnknownElement) == "UNK" && UnknownElement !in ETYPES
  {
  }

  /** Law is the only member of ETYPES without parent candidates. */
  lemma OnlyLawIsParentless(k: Kind)
    requires k in ETYPES
    ensures ParentCandidates(k) == [] <==> k == Law
  {
  }

  /** Every parent candidate is a member of ETYPES at a strictly smaller LEVEL. */
  lemma ParentsAreShallower(k: Kind, p: Kind)
    requires IsParentCandidate(p, k)
    ensures Level(p) < Level(k) && p in ETYPES && p != k
  {
    ParentCandidateLevel(k, p);
    EtypesMembers(p);
  }

  lemma ParentCandidateLevel(k: Kind, p: Kind)
    requires IsParentCandidate(p, k)
    ensures Level(p) < Level(k) && p != UnknownElement
  {
    match k
    case Law =>
    case LawBody =>
    case MainProvision =>
    case Part =>
    case Chapter =>
    case Section =>
    case Subsection =>
    case Division =>
    case Article =>
    case ArticleCaption =>
    case Paragraph =>
    case ParagraphCaption =>
    case ParagraphSentence =>
    case Item =>
    case ItemSentence =>
    case Subitem1 =>
    case Subitem1Sentence =>
    case Subitem2 =>
    case Subitem2Sentence =>
    case Subitem3 =>
    case Subitem3Sentence =>
    case Subitem4 =>
    case Subitem4Sentence =>
    case Subitem5 =>
    case Subitem5Sentence =>
    case Column =>
    case Sentence =>
    case UnknownElement =>
  }

  /** ETYPES is listed in strictly ascending (LEVEL, SUBLEVEL) order. */
  lemma EtypesStrictlyAscending()
    ensures Sorting.StrictlySortedBy(ETYPES, Key)
  {
    forall i | 0 < i < |ETYPES| ensures Sorting.KeyLt(Key(ETYPES[i - 1]), Key(ETYPES[i])) {
      if i < 5 {
        EtypesAscending1(i);
      } else if i < 9 {
        EtypesAscending2(i);
      } else if i < 13 {
        EtypesAscending3(i);
      } else if i < 17 {
        EtypesAscending4(i);
      } else if i < 21 {
        EtypesAscending5(i);
      } else if i < 24 {
        EtypesAscending6(i);
      } else {
        EtypesAscending7(i);
      }
    }
    Sorting.StrictlySortedByNeighbours(ETYPES, Key);
  }

  lemma EtypesAscending1(i: int)
    requires 1 <= i < 5
    ensures Sorting.KeyLt(Key(ETYPES[i - 1]), Key(ETYPES[i]))
  {
    if i == 1 {
      assert ETYPES[0] == Law && ETYPES[1] == LawBody;
    } else if i == 2 {
      assert ETYPES[1] == LawBody && ETYPES[2] == MainProvision;
    } else if i == 3 {
      assert ETYPES[2] == MainProvision && ETYPES[3] == Part;
    } else if i == 4 {
      assert ETYPES[3] == Part && ETYPES[4] == Chapter;
    }
  }

  lemma EtypesAscending2(i: int)
    requires 5 <= i < 9
    ensures Sorting.KeyLt(Key(ETYPES[i - 1]), Key(ETYPES[i]))
  {
    if i == 5 {
      assert ETYPES[4] == Chapter && ETYPES[5] == Section;
    } else if i == 6 {
      assert ETYPES[5] == Section && ETYPES[6] == Subsection;
    } else if i == 7 {
      assert ETYPES[6] == Subsection && ETYPES[7] == Division;
    } else if i == 8 {
      assert ETYPES[7] == Division && ETYPES[8] == Article;
    }
  }

  lemma EtypesAscending3(i: int)
    requires 9 <= i < 13
    ensures Sorting.KeyLt(Key(ETYPES[i - 1]), Key(ETYPES[i]))
  {
    if i == 9 {
      assert ETYPES[8] == Article && ETYPES[9] == ArticleCaption;
    } else if i == 10 {
      assert ETYPES[9] == ArticleCaption && ETYPES[10] == Paragraph;
    } else if i == 11 {
      assert ETYPES[10] == Paragraph && ETYPES[11] == ParagraphCaption;
    } else if i == 12 {
      assert ETYPES[11] == ParagraphCaption && ETYPES[12] == ParagraphSentence;
    }
  }

  lemma EtypesAscending4(i: int)
    requires 13 <= i < 17
    ensures Sorting.KeyLt(Key(ETYPES[i - 1]), Key(ETYPES[i]))
  {
    if i == 13 {
      assert ETYPES[12] == ParagraphSentence && ETYPES[13] == Item;
    } else if i == 14 {
      assert ETYPES[13] == Item && ETYPES[14] == ItemSentence;
    } else if i == 15 {
      assert ETYPES[14] == ItemSentence && ETYPES[15] == Subitem1;
    } else if i == 16 {
      assert ETYPES[15] == Subitem1 && ETYPES[16] == Subitem1Sentence;
    }
  }

  lemma EtypesAscending5(i: int)
    requires 17 <= i < 21
    ensures Sorting.KeyLt(Key(ETYPES[i - 1]), Key(ETYPES[i]))
  {
    if i == 17 {
      assert ETYPES[16] == Subitem1Sentence && ETYPES[17] == Subitem2;
    } else if i == 18 {
      assert ETYPES[17] == Subitem2 && ETYPES[18] == Subitem2Sentence;
    } else if i == 19 {
      assert ETYPES[18] == Subitem2Sentence && ETYPES[19] == Subitem3;
    } else if i == 20 {
      assert ETYPES[19] == Subitem3 && ETYPES[20] == Subitem3Sentence;
    }
  }

  lemma EtypesAscending6(i: int)
    requires 21 <= i < 24
    ensures Sorting.KeyLt(Key(ETYPES[i - 1]), Key(ETYPES[i]))
  {
    if i == 21 {
      assert ETYPES[20] == Subitem3Sentence && ETYPES[21] == Subitem4;
    } else if i == 22 {
      assert ETYPES[21] == Subitem4 && ETYPES[22] == Subitem4Sentence;
    } else if i == 23 {
      assert ETYPES[22] == Subitem4Sentence && ETYPES[23] == Subitem5;
    }
  }

  lemma EtypesAscending7(i: int)
    requires 24 <= i < 27
    ensures Sorting.KeyLt(Key(ETYPES[i - 1]), Key(ETYPES[i]))
  {
    if i == 24 {
      assert ETYPES[23] == Subitem5 && ETYPES[24] == Subitem5Sentence;
    } else if i == 25 {
      assert ETYPES[24] == Subitem5Sentence && ETYPES[25] == Column;
    } else if i == 26 {
      assert ETYPES[25] == Column && ETYPES[26] == Sentence;
    }
  }

  /** The (LEVEL, SUBLEVEL) pairs of the members of ETYPES are pairwise distinct. */
  lemma EtypesKeysDistinct()
    ensures forall i, j :: 0 <= i < j < |ETYPES| ==> Key(ETYPES[i]) != Key(ETYPES[j])
  {
    EtypesStrictlyAscending();
  }

  /** The negative SUBLEVELs are exactly those of the captions and the *Sentence kinds
    * below Paragraph, which therefore sort before a same-LEVEL kind of SUBLEVEL 0. */
  lemma NegativeSubLevels(k: Kind, other: Kind)
    ensures SubLevel(k) < 0 <==>
              k in [ArticleCaption, ParagraphCaption, ParagraphSentence, ItemSentence, Subitem1Sentence,
                    Subitem2Sentence, Subitem3Sentence, Subitem4Sentence, Subitem5Sentence]
    ensures SubLevel(k) < 0 && Level(k) == Level(other) && SubLevel(other) == 0 ==> Sorting.KeyLt(Key(k), Key(other))
  {
  }

  /** sort_etypes returns a permutation of its argument in ascending (LEVEL, SUBLEVEL) order. */
  lemma SortEtypesCorrect(ks: seq<Kind>)
    ensures Sorting.SortedBy(SortEtypes(ks), Key)
    ensures multiset(SortEtypes(ks)) == multiset(ks)
  {
    Sorting.SortByCorrect(ks, Key);
  }

  /** Sorting ETYPES gives back ETYPES. */
  lemma SortEtypesOfEtypes()
    ensures SortEtypes(ETYPES) == ETYPES
  {
    EtypesStrictlyAscending();
    Sorting.StrictlySortedIsSorted(ETYPES, Key);
    Sorting.SortBySortedIdentity(ETYPES, Key);
  }
}
