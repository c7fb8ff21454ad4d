# jstatutree in Dafny

jstatutree reads Japanese statutes (laws, ordinances and rules) into a tree of
typed elements: a law holds a body, the body a main provision, which holds parts,
chapters, sections, articles, paragraphs, items, sub-items and sentences. This
project models the core of that tree model and proves properties of it.

The parts modelled:

- **Element numbers and law metadata** (`lawdata.dfy`).
  - An element number such as `"3_2"` is decoded into one exact decimal, 3 + 2/1000. Decimals are `real`s.
  - `main_num` rounds the number half to even, and `branch_nums` runs its loop.
  - `LawData` holds a name and a law number that read "UNK" while unset, and decides whether the law is a reiki (an ordinance or rule).
  - `ReikiData` validates, zero-pads and joins the prefecture, municipality and file codes, and memoises `code` and `id`.
- **The kind table** (`etypes.dfy`).
  - The 27 element kinds with their LEVEL, SUBLEVEL, PARENT_CANDIDATES and JNAME, plus UnknownElement.
  - `ETYPES`, `ETYPES_DICT`, `get_etypes`, `element_factory` and `sort_etypes`.
- **Tree elements** (`tree_nodes.dfy`, `tree_search.dfy`, `tree_element.dfy`).
  - A node is its chain of ancestors from the root plus the tree it reads, or a virtual node that keeps its proxy.
  - On these nodes: `__eq__`, the parent-climbing `__lt__`, names, `__str__` and codes.
  - `depth_first_search`: a generator modelled as a method with its loop, against a function. It synthesises virtual nodes when a document skips a level.
  - `depth_first_iteration`, `iter_sentences` and `_find_children`.
  - A `TreeElement` class with the memo slots `_num`, `_children`, `_text`, `_code` and `_is_vnode`. It models `inheritance`, `get_virtual_node` and `delete_values`.
- **The ElementTree-style element** (`element.dfy`).
  - A class with an in-place child list.
  - The list operations, `get`/`set`, `clear`, `num` and `copy`.
  - `iter` and `itertext` over a snapshot of the subtree.
- **The builder** (`tree_builder.dfy`). A class driven by start, data and end events.
  - Its state is a stack of (element, included) entries, a text buffer and the main-provision flag.
  - It applies the skip patterns and attaches each element to the nearest included entry.
  - On end, it records law number, title and caption.
- **The statute dictionaries** (`jstatute_dict.dfy`).
  - `JStatuteDict` and its reiki filter.
  - The level index of `JStatutreeKVSDict`, with its store as a map from keys to lists of child keys.
  - The key prefix of `JSSentenceKVSDict`.
- **The older kind registry of the top-level `etypes.py`** (`old_etypes.dfy`). A separate module:
  - its own kind table;
  - `get_etypes_core` over a model of a module's globals;
  - its `__eq__`, `__lt__` (with no level climbing), `inheritance`, `name`, `__str__` and `_find_children`.

Shared helpers:

- `strings.dfy`: digit strings, `split`, `strip`, `str.format` of one field, `int()`;
- `sorting.dfy`: a stable insertion sort by key, proved sorted and a permutation;
- `seqs.dfy`: flattening;
- `errors.dfy`: the Python exceptions as values.

Behaviour is modelled as the code is written, including its quirks:

- `branch_nums` is always empty.
- The SUBLEVEL test in `__lt__` compares a kind with itself.
- Siblings whose numbers round alike share a name in `_find_children`, so the later one replaces the earlier.
- In the older registry, Article (LEVEL 4) accepts parents at LEVELs 4 to 7.
- The older registry raises `HieralchyError`, a name it never imports, so the model raises a NameError there.

## Model

| member | source | states |
|---|---|---|
| Lawdata.RoundHalfEven | jstatutree/lawdata.py:156-157 | reference definition; properties in Lawdata.RoundHalfEvenBounds and Lawdata.RoundResidual |
| Lawdata.ElementNumber.MainNum | jstatutree/lawdata.py:156-157 | reference definition; properties in Lawdata.RoundHalfEvenBounds and Lawdata.MainNumIsLeadingToken |
| Lawdata.ElementNumber.BranchNums | jstatutree/lawdata.py:160-167 | reference definition; properties in Lawdata.BranchNumsLoop, Lawdata.BranchNumsAlwaysEmpty and Lawdata.BranchNumsFromAtMostOne |
| Lawdata.RoundHalfEvenBounds | jstatutree/lawdata.py:155-157 | main_num is within 1/2 of the number, equals the floor when the fraction is below 1/2, and is the number itself for integers |
| Lawdata.RoundResidual | jstatutree/lawdata.py:162-163 | the remainder num - main_num always rounds to 0 |
| Lawdata.BranchNumsFromAtMostOne | jstatutree/lawdata.py:159-167 | from any start remainder the branch loop collects at most one number |
| Lawdata.BranchNumsAlwaysEmpty | jstatutree/lawdata.py:159-167 | branch_nums is the empty list for every element number |
| Lawdata.BranchNumsLoop | jstatutree/lawdata.py:161-167 | the while loop computes the reference sequence BranchNumsFrom of its start remainder |
| Lawdata.SplitUnderscored | jstatutree/lawdata.py:172-176 | every piece of an underscore-separated digit string is a non-empty digit string |
| Lawdata.FormatTokens | jstatutree/lawdata.py:172-177 | every piece of a string the format check accepts is a valid Decimal token |
| Lawdata.Decode | jstatutree/lawdata.py:169-179 | reference definition; properties in Lawdata.StrToDecimal, Lawdata.DecodeEmptyIsOne, Lawdata.DecodeSingleToken, Lawdata.DecodeRejects and Lawdata.DecodeTrailingNewline |
| Lawdata.StrToDecimal | jstatutree/lawdata.py:169-179 | the method returns Decode: 1 for "", an error for a malformed string, and otherwise the weighted sum of the tokens |
| Lawdata.HornerAppend | jstatutree/lawdata.py:176-178 | one more token adds its value at weight 1/1000^i, where i is the number of tokens before it |
| Lawdata.SumTokens | jstatutree/lawdata.py:174-179 | the for loop with its shrinking multiplier computes t0 + t1/1000 + t2/1000^2 + ... |
| Lawdata.DecodeEmptyIsOne | jstatutree/lawdata.py:170-171 | ElementNumber("") has value 1 |
| Lawdata.DecodeSingleToken | jstatutree/lawdata.py:174-179 | the decimal string of n decodes to exactly n |
| Lawdata.NewElementNumber | jstatutree/lawdata.py:140-150 | reference definition; properties in Lawdata.ArgumentForms and Lawdata.DecodeRejects |
| Lawdata.ArgumentForms | jstatutree/lawdata.py:140-150 | an int and its decimal string give the same number; a Decimal is kept; an ElementNumber is copied; any other type raises TypeError |
| Lawdata.DecodeRejects | jstatutree/lawdata.py:170-173 | a string is rejected exactly when it is non-empty and outside the numbering grammar, and then with LawElementNumberError |
| Lawdata.HornerInjective | jstatutree/lawdata.py:174-179 | the tokens can be read back from the value: two token lists of one length, every token after the first below 1000, with the same value are equal |
| Lawdata.HornerBounds | jstatutree/lawdata.py:174-179 | with tokens below 1000 the value is below 1000 and below the first token plus 1 |
| Lawdata.MainNumIsLeadingToken | jstatutree/lawdata.py:155-157 | main_num of a decoded number is its first token when the second token is below 500 |
| Lawdata.DecodeTrailingNewline | jstatutree/lawdata.py:172-177 | the `$` anchor lets a final newline through, and it changes nothing in the value |
| Lawdata.IsReikiNumber | jstatutree/lawdata.py:66-67 | reference definition; properties in Lawdata.IsReikiNumberIff, Lawdata.IsReikiNumberOfInfix and Lawdata.NotReikiNumbers |
| Lawdata.IsReikiNumberIff | jstatutree/lawdata.py:66-67 | is_reiki holds exactly when the law number contains 条例 or 規則 |
| Lawdata.IsReikiNumberOfInfix | jstatutree/lawdata.py:66-67 | any law number with 条例 or 規則 inside is a reiki number |
| Lawdata.NotReikiNumbers | jstatutree/lawdata.py:66-67 | the default "UNK" and a notice number 告示 are not reiki numbers |
| Lawdata.LawData.constructor | jstatutree/lawdata.py:45-48 | name, law number and title start unset |
| Lawdata.LawData.Name | jstatutree/lawdata.py:50-52 | the name reads "UNK" while unset and the stored name otherwise |
| Lawdata.LawData.Lawnum | jstatutree/lawdata.py:58-60 | the law number reads "UNK" while unset and the stored one otherwise |
| Lawdata.LawData.SetName | jstatutree/lawdata.py:54-56 | the setter replaces the name and nothing else |
| Lawdata.LawData.SetLawnum | jstatutree/lawdata.py:62-64 | the setter replaces the law number and nothing else |
| Lawdata.LawData.SetTitle | jstatutree/tree_builder.py:115-116 | the title attribute the builder assigns replaces the title and nothing else |
| Lawdata.LawData.Code | jstatutree/lawdata.py:69-71 | the code of plain metadata is its law number |
| Lawdata.FreshLawDataIsNotReiki | jstatutree/lawdata.py:45-67 | unset metadata reads "UNK" for name, law number and code, and is not a reiki |
| Lawdata.CheckedCode | jstatutree/lawdata.py:87-111 | a setter's result is a digit string of the field's width; an in-range int gives its zero-padded form; a non-str, non-int value is an AssertionError |
| Lawdata.CheckedCodeRoundTrip | jstatutree/lawdata.py:87-111 | the setters accept exactly the in-range values, as int or as digit string, and int() of the stored code gives the value back |
| Lawdata.JoinCodesSplit | jstatutree/lawdata.py:114-122 | the joined code splits at "/" back into its three parts |
| Lawdata.IdOfIsInt | jstatutree/lawdata.py:124-128 | both int() calls of id succeed on digit fields and id is muni * 10000 + file |
| Lawdata.IdOfPadded | jstatutree/lawdata.py:124-128 | id of the padded fields recovers the municipality number (id / 10000) and the file number (id % 10000) |
| Lawdata.ReikiData.constructor | jstatutree/lawdata.py:75-81 | the codes start as "00", "000000" and "0000", the code as "00/000000/0000", the id as 0 |
| Lawdata.ReikiData.SetPrefectureCode | jstatutree/lawdata.py:87-91 | accepts 0 < int(val) <= 47 and stores it with width 2; otherwise raises and keeps the old code; the other fields are unchanged |
| Lawdata.ReikiData.SetMunicipalityCode | jstatutree/lawdata.py:97-101 | accepts 10000 <= int(val) < 480000 and stores it with width 6; otherwise raises and keeps the old code; the other fields are unchanged |
| Lawdata.ReikiData.SetFileCode | jstatutree/lawdata.py:107-111 | accepts 0 <= int(val) < 10000 and stores it with width 4; otherwise raises and keeps the old code; the other fields are unchanged |
| Lawdata.ReikiData.Code | jstatutree/lawdata.py:114-122 | returns the memo unless it is the default, else the joined fields, and memoises what it returns |
| Lawdata.ReikiData.Id | jstatutree/lawdata.py:124-128 | returns the memo unless it is 0, else int(muni) * 10000 + int(file), and memoises it |
| Lawdata.ReikiData.Equals | jstatutree/lawdata.py:130-133 | false against a non-ReikiData; otherwise the codes compared, after both are memoised |
| Lawdata.ReikiCodeOfSetValues | jstatutree/lawdata.py:87-122 | in-range codes give a 14-character code different from the default, whose parts parse back to the numbers set |
| Lawdata.CodeOfParts | jstatutree/lawdata.py:114-122 | fields of widths 2, 6 and 4 with a non-zero prefecture join into a 14-character code, not the default, that splits back into them |
| Lawdata.PaddedParts | jstatutree/lawdata.py:91-111 | zero-padding in-range codes gives the fixed widths, and int() reads the numbers back |
| Etypes.Etype | jstatutree/etypes.py:16-22 | the etype of an element of any listed kind is its class name (UnknownElement's 'UNK' is stated in UnknownElementShape) |
| Etypes.NameDict | jstatutree/etypes.py:203 | the dict comprehension has a key exactly for each class name in the list, mapped to a kind of that name |
| Etypes.GetEtypes | jstatutree/etypes.py:4-8 | get_etypes returns ETYPES exactly when the name is missing or empty |
| Etypes.FactoryKind | jstatutree/etypes.py:10-11 | element_factory fails, with TypeError, exactly for the empty name, whose get_etypes is the list |
| Etypes.KindNamed | jstatutree/etypes.py:203 | a kind found for a name has that class name |
| Etypes.KindNamedClassName | jstatutree/etypes.py:203 | looking a kind up by its class name gives the kind back |
| Etypes.ClassNameInjective | jstatutree/etypes.py:16-172 | two kinds have the same class name exactly when they are the same kind |
| Etypes.EtypesMembers | jstatutree/etypes.py:174-202 | ETYPES lists exactly the kinds other than UnknownElement |
| Etypes.UnknownElementNotListed | jstatutree/etypes.py:174-202 | UnknownElement is not in ETYPES |
| Etypes.ClassNamesDistinct | jstatutree/etypes.py:174-203 | the class names of ETYPES are pairwise distinct |
| Etypes.EtypesDictMapsNames | jstatutree/etypes.py:203 | ETYPES_DICT maps each listed kind's class name to that kind |
| Etypes.GetEtypesByName | jstatutree/etypes.py:4-8 | get_etypes of a non-empty name is the kind of that class name, or UnknownElement for any other name |
| Etypes.UnknownElementShape | jstatutree/etypes.py:16-22 | UnknownElement has LEVEL 0, no parent candidates and etype 'UNK', and is not in ETYPES |
| Etypes.OnlyLawIsParentless | jstatutree/etypes.py:24-172 | among ETYPES, Law alone has no parent candidates |
| Etypes.ParentsAreShallower | jstatutree/etypes.py:24-172 | every parent candidate is a different member of ETYPES at a strictly smaller LEVEL |
| Etypes.ParentCandidateLevel | jstatutree/etypes.py:24-172 | a parent candidate has a smaller LEVEL and is never UnknownElement |
| Etypes.EtypesStrictlyAscending | jstatutree/etypes.py:174-202 | ETYPES is listed in strictly ascending (LEVEL, SUBLEVEL) order |
| Etypes.EtypesKeysDistinct | jstatutree/etypes.py:24-202 | the (LEVEL, SUBLEVEL) pairs of the 27 members are pairwise distinct |
| Etypes.NegativeSubLevels | jstatutree/etypes.py:66-146 | the negative SUBLEVELs are exactly the captions and the Paragraph, Item and Subitem sentences, which sort before a same-LEVEL kind of SUBLEVEL 0 |
| Etypes.SortEtypes | jstatutree/etypes.py:13-14 | reference definition; properties in Etypes.SortEtypesCorrect and Etypes.SortEtypesOfEtypes |
| Etypes.SortEtypesCorrect | jstatutree/etypes.py:13-14 | sort_etypes returns a permutation of its input in ascending (LEVEL, SUBLEVEL) order |
| Etypes.SortEtypesOfEtypes | jstatutree/etypes.py:13-14 | sorting ETYPES gives ETYPES back |
| Elements.InsertPosition | jstatutree/element.py:75-77 | list.insert's position is clamped into 0..len and counts a negative index from the end |
| Elements.FirstIndexOf | jstatutree/element.py:83-84 | the first position holding the object, and none exactly when it is absent |
| Elements.Element.Init | jstatutree/element.py:20-31 | a new element has the given tag and attrib, no text, tail or children, empty title and caption, and no number |
| Elements.Element.GetItem | jstatutree/element.py:52-53 | self[i] is the child at the normalised index, or IndexError out of range |
| Elements.Element.SetItem | jstatutree/element.py:55-61 | a non-Element raises TypeError; an index out of range raises IndexError; otherwise that one child is replaced |
| Elements.Element.DelItem | jstatutree/element.py:63-64 | del removes exactly the child at the normalised index, or raises IndexError and changes nothing |
| Elements.Element.Append | jstatutree/element.py:66-68 | a non-Element raises TypeError and changes nothing; otherwise the child goes last |
| Elements.Element.Extend | jstatutree/element.py:70-73 | fails exactly when some item is not an Element, then adding none; otherwise all are added in order |
| Elements.Element.Insert | jstatutree/element.py:75-77 | a non-Element raises TypeError; otherwise the child is inserted at the clamped position |
| Elements.Element.Remove | jstatutree/element.py:83-84 | removes the first occurrence of the child, or raises ValueError exactly when it is absent |
| Elements.Element.Clear | jstatutree/element.py:98-101 | attrib and children are emptied, text and tail are None |
| Elements.Element.Get | jstatutree/element.py:103-104 | the attribute's value when present, the default otherwise |
| Elements.Element.Set | jstatutree/element.py:106-107 | the key now reads the value and every other key keeps its value |
| Elements.Element.Num | jstatutree/element.py:156-160 | with a Num attribute the parsed number, kept on success; otherwise the kept number or ElementNumber(1) |
| Elements.Element.Copy | jstatutree/element.py:36-44 | a fresh element of the factory's kind with the same tag, attrib, text, tail and children, an empty title and caption and no cached number; an empty tag fails in the factory |
| Elements.New | jstatutree/element.py:20-31 | a non-dict attrib raises TypeError; otherwise a fresh element whose attrib is the dict updated with the keywords |
| Elements.MergedAttrib | jstatutree/element.py:24-25 | in the merged attrib the keywords win, every other key of the dict keeps its value, and the keys are the union |
| Elements.Iter | jstatutree/element.py:128-135 | reference definition; properties in Elements.IterIsPreorder, Elements.IterNone and Elements.Preorder |
| Elements.Preorder | jstatutree/element.py:128-135 | the preorder of a subtree starts with its root |
| Elements.IterIsPreorder | jstatutree/element.py:128-135 | iter() and iter("*") give the subtree in preorder, and iter(tag) its elements with that tag in the same order |
| Elements.IterAllIsPreorder | jstatutree/element.py:133-135 | the same over a list of children |
| Elements.IterNone | jstatutree/element.py:128-132 | iter() yields the whole preorder |
| Elements.IterText | jstatutree/element.py:115-126 | itertext yields no empty string |
| Elements.Content | jstatutree/element.py:115-127 | reference definition; properties in Elements.IterTextIsContent and Elements.IterTextAllIsContent |
| Elements.IsDeleted | jstatutree/element.py:137-138 | reference definition; properties in Elements.IterTextIsContent |
| Elements.IterTextIsContent | jstatutree/element.py:115-138 | the joined itertext is the text content (text, children's content and tails), so is_deleted holds exactly when it is 削除 |
| Elements.IterTextAllIsContent | jstatutree/element.py:122-126 | the joined itertext of the children is their content with their tails |
| TreeNodes.TreeNum | jstatutree/tree_element.py:122-123 | a real element without its own number reports ElementNumber("1") |
| TreeNodes.NodeNum | jstatutree/tree_element.py:73-79 | a virtual node's num is 0 |
| TreeNodes.Path | jstatutree/tree_element.py:14-18 | the chain of a node ends with the node's own kind, num and virtual flag |
| TreeNodes.Children | jstatutree/tree_element.py:30-36 | children.values() has one entry per child of the tree the node reads, and a virtual node reads its proxy's tree |
| TreeNodes.ChildrenAreLower | jstatutree/tree_element.py:67-71 | every child reads a lower tree than its parent, so traversals terminate |
| TreeNodes.Eq | jstatutree/tree_element.py:238-247 | reference definition; properties in TreeNodes.EqMeaning, TreeNodes.EqReflexive and TreeNodes.EqSymmetric |
| TreeNodes.EqMeaning | jstatutree/tree_element.py:238-246 | __eq__ holds exactly on chains that agree step by step in kind and num value, and fails exactly when a shorter chain agrees with the end of a longer one |
| TreeNodes.EqReflexive | jstatutree/tree_element.py:238-240 | every element equals itself |
| TreeNodes.EqSymmetric | jstatutree/tree_element.py:238-246 | __eq__ is symmetric, errors included |
| TreeNodes.Lt | jstatutree/tree_element.py:251-268 | reference definition; properties in TreeNodes.LtIrreflexive, TreeNodes.LtSiblings, TreeNodes.LtDeeperRight, TreeNodes.LtDeeperLeft and TreeNodes.LtParentChildUnordered |
| TreeNodes.Le | jstatutree/tree_element.py:269-273 | reference definition; properties in TreeNodes.LeReflexive |
| TreeNodes.LeReflexive | jstatutree/tree_element.py:269-273 | every element is at most itself |
| TreeNodes.LtIrreflexive | jstatutree/tree_element.py:251-267 | no element is less than itself |
| TreeNodes.LtSiblings | jstatutree/tree_element.py:251-267 | siblings at one LEVEL compare by num value whatever their SUBLEVELs, and at different LEVELs each is less than the other |
| TreeNodes.Gt | jstatutree/tree_element.py:274-276 | reference definition; properties in TreeNodes.GtSelf, TreeNodes.GtOfUnequal and TreeNodes.ParentBelowChild |
| TreeNodes.Ge | jstatutree/tree_element.py:277-279 | reference definition; properties in TreeNodes.GtOfUnequal |
| TreeNodes.GtSelf | jstatutree/tree_element.py:274-275 | no element is greater than itself |
| TreeNodes.LtDeeperRight | jstatutree/tree_element.py:255-256 | with a deeper right side, a < b is a > b.parent |
| TreeNodes.LtDeeperLeft | jstatutree/tree_element.py:253-254 | with a deeper left side, a < b is a.parent > b |
| TreeNodes.GtOfUnequal | jstatutree/tree_element.py:269-278 | for unequal elements __gt__ and __ge__ agree |
| TreeNodes.ParentBelowChild | jstatutree/tree_element.py:251-278 | a parent is greater than its deeper child |
| TreeNodes.ChildAboveParent | jstatutree/tree_element.py:251-278 | a deeper child is greater than its parent |
| TreeNodes.LtParentChildUnordered | jstatutree/tree_element.py:251-267 | neither a parent nor its deeper child is less than the other |
| TreeNodes.CaptionAndParagraphUnordered | jstatutree/tree_element.py:263-266 | an article caption and a paragraph with the same number under one article are unordered, although their SUBLEVELs differ |
| TreeNodes.Name | jstatutree/tree_element.py:89-103 | reference definition; properties in TreeNodes.CaptionNames, TreeNodes.ParagraphName, TreeNodes.ArticleName and TreeNodes.NameOfVirtual |
| TreeNodes.CaptionNames | jstatutree/tree_element.py:102-103 | the captions are named 条見出し and 項見出し whatever their number |
| TreeNodes.ParagraphName | jstatutree/tree_element.py:98-101 | a paragraph is named 第n項 with n = int(main_num) |
| TreeNodes.ArticleName | jstatutree/tree_element.py:93-97 | an article is named 第n条 because branch_nums is empty |
| TreeNodes.Str | jstatutree/tree_element.py:284-287 | reference definition; properties in TreeNodes.NameOfVirtual |
| TreeNodes.NameOfVirtual | jstatutree/tree_element.py:89-92 | a virtual node takes its proxy's name and string form; its code adds "/Kind(0)" to the proxy's code; its num is 0 |
| TreeNodes.Code | jstatutree/tree_element.py:59-64 | reference definition; properties in TreeNodes.CodeLastSegment and TreeNodes.NameOfVirtual |
| TreeNodes.CodeLastSegment | jstatutree/tree_element.py:59-64 | the last path segment of an element's code is its class name and its main number in parentheses |
| TreeSearch.InsertNode | jstatutree/tree_element.py:189 | inserting into the sorted children adds exactly that node |
| TreeSearch.SortNodes | jstatutree/tree_element.py:189 | sorted() returns a permutation of the children |
| TreeSearch.SortedChildren | jstatutree/tree_element.py:189 | the sorted children are a permutation of the children, each reading a lower tree |
| TreeSearch.SortedChildrenAreReal | jstatutree/tree_element.py:30-36 | every sorted child is a child, and a real node |
| TreeSearch.SiblingsCompare | jstatutree/tree_element.py:251-267 | children of one node compare without error: by num at one LEVEL, each less than the other at different LEVELs |
| TreeSearch.Search | jstatutree/tree_element.py:177-206 | reference definition; properties in TreeSearch.DepthFirstSearch and the TreeSearch.Search* lemmas below |
| TreeSearch.Scan | jstatutree/tree_element.py:187-206 | reference definition; properties in TreeSearch.ScanStep and TreeSearch.ScanChildren |
| TreeSearch.ScanStep | jstatutree/tree_element.py:189-203 | one turn of the loop: recurse into a shallower child, yield a matching child, skip a same-LEVEL child of another SUBLEVEL, and on a deeper child yield the virtual node and stop, or yield self |
| TreeSearch.DepthFirstSearch | jstatutree/tree_element.py:177-206 | the generator with its flags yields exactly Search, the recursive reference |
| TreeSearch.ScanChildren | jstatutree/tree_element.py:187-206 | the loop over the sorted children, with its yielded and iterated flags and the virtual node after it, yields exactly Scan from the empty state |
| TreeSearch.VisitChild | jstatutree/tree_element.py:190-203 | one loop turn with its flag updates continues Search at the next child, or ends it |
| TreeSearch.VirtualNodeShape | jstatutree/tree_element.py:30-36 | get_virtual_node gives a virtual node of the target kind and num 0 below the node, sharing its children |
| TreeSearch.SearchSelf | jstatutree/tree_element.py:180-183 | a target of the node's own (LEVEL, SUBLEVEL) yields exactly the node |
| TreeSearch.SearchShallowerTarget | jstatutree/tree_element.py:184-185 | a target shallower than the node yields nothing |
| TreeSearch.SearchChildless | jstatutree/tree_element.py:186-206 | a childless node of another key yields nothing |
| TreeSearch.SearchKeys | jstatutree/tree_element.py:177-206 | with valid_vnode every yielded node has the target's (LEVEL, SUBLEVEL) |
| TreeSearch.SearchFirstChildDeeper | jstatutree/tree_element.py:198-202 | with valid_vnode a first child deeper than the target gives exactly one virtual node |
| TreeSearch.SearchAllSkipped | jstatutree/tree_element.py:204-206 | with valid_vnode, children that are all skipped give exactly one virtual node |
| TreeSearch.SearchNoVirtual | jstatutree/tree_element.py:177-206 | without valid_vnode no virtual node is yielded |
| TreeSearch.SearchOvershoot | jstatutree/tree_element.py:198-203 | without valid_vnode, children that all overshoot yield the node once per child |
| TreeSearch.Iteration | jstatutree/tree_element.py:208-211 | reference definition; properties in TreeSearch.IterationCoversSubtree |
| TreeSearch.IterationCoversSubtree | jstatutree/tree_element.py:208-211 | depth_first_iteration visits each node of the subtree exactly as often as the subtree holds it |
| TreeSearch.SubtreeOfIsFlatMap | jstatutree/tree_element.py:208-211 | the subtree below a list of children is the concatenation of their subtrees |
| TreeSearch.IterSentences | jstatutree/tree_element.py:213-216 | reference definition; properties in TreeSearch.IterSentencesShape and TreeSearch.SentenceTexts |
| TreeSearch.Text | jstatutree/tree_element.py:82-86 | reference definition; properties in TreeElements.TreeElement.Text |
| TreeSearch.SentenceTexts | jstatutree/tree_element.py:213-216 | iter_sentences yields at most one text per node it visits |
| TreeSearch.IterSentencesShape | jstatutree/tree_element.py:213-216 | a subtree without Sentence nodes yields no texts, and a childless sentence yields only its own text |
| TreeElements.ChildDict.Put | jstatutree/tree_element.py:145 | storing a name replaces its entry; a new name goes last and an existing one keeps its place |
| TreeElements.In | jstatutree/tree_element.py:140 | `child in children.values()` is false exactly when every stored value compares unequal |
| TreeElements.FindChildren | jstatutree/tree_element.py:135-156 | the loop of _find_children computes the reference FindChildrenOf |
| TreeElements.SiblingsEq | jstatutree/tree_element.py:238-246 | siblings are equal exactly when kind and num value agree |
| TreeElements.FindChildrenDistinct | jstatutree/tree_element.py:135-156 | pairwise unequal children with distinct names are all kept, in order |
| TreeElements.FindFromStores | jstatutree/tree_element.py:145 | a child that no later child shares a name with is stored under its name |
| TreeElements.FindFromKeeps | jstatutree/tree_element.py:135-156 | an entry that no later child is named after survives the loop |
| TreeElements.RepeatRaises | jstatutree/tree_element.py:140-144 | a child equal to a stored one raises HieralchyError |
| TreeElements.FindFromStep | jstatutree/tree_element.py:137-145 | a child equal to no stored value is stored under its name and the loop goes on with the rest |
| TreeElements.SingleValues | jstatutree/tree_element.py:136-145 | a dict holding one child lists exactly that child among its values |
| TreeElements.FirstStored | jstatutree/tree_element.py:136-145 | the first listed child always goes into the empty dict |
| TreeElements.ReplaceSingle | jstatutree/tree_element.py:140-145 | a child sharing the lone stored child's name without equalling it replaces it |
| TreeElements.SameNameDistinct | jstatutree/tree_element.py:135-145 | siblings of one kind with differing numbers of the same main_num share a name and compare unequal both ways |
| TreeElements.SameMainNumOverwrites | jstatutree/tree_element.py:135-156 | siblings whose numbers round alike share a name and the later one replaces the earlier |
| TreeElements.ReplacedDuplicateMissed | jstatutree/tree_element.py:135-156 | after such a replacement a repeat of the first child goes undetected |
| TreeElements.TreeElement.constructor | jstatutree/tree_element.py:14-18 | _num, _children and _text start as None, _code and _is_vnode absent |
| TreeElements.TreeElement.IsVnode | jstatutree/tree_element.py:53-57 | is_vnode is False unless set, and the default is stored on first read |
| TreeElements.TreeElement.Num | jstatutree/tree_element.py:73-79 | num is 0 for a virtual node, is otherwise read once and kept, and reads the same afterwards |
| TreeElements.TreeElement.Children | jstatutree/tree_element.py:67-71 | _find_children runs on the first read and its dict is kept, or nothing is stored when it raises; later reads return the kept dict; a deleted slot raises AttributeError |
| TreeElements.TreeElement.Text | jstatutree/tree_element.py:82-86 | the normalised, stripped text is computed on the first read and then kept; a deleted slot raises AttributeError |
| TreeElements.TreeElement.Code | jstatutree/tree_element.py:59-64 | code is computed once from the parent's code and then kept, whatever the parent's code becomes |
| TreeElements.TreeElement.DeleteValues | jstatutree/tree_element.py:226-231 | each tag deletes "_" + tag and tag where present, and other attributes are unchanged |
| TreeElements.TreeElement.GetVirtualNode | jstatutree/tree_element.py:30-36 | after delete_values has removed _children, reading it raises AttributeError; otherwise a fresh virtual element of the target kind below this one, sharing its children slot, with num, text and code unset |
| TreeElements.TreeElement.DeleteValue | jstatutree/tree_element.py:227-231 | one tag deletes the attribute "_" + tag and the attribute tag, and no other |
| TreeElements.RemovesSome | jstatutree/tree_element.py:227-231 | an attribute is deleted exactly when some tag names it |
| TreeElements.Inheritance | jstatutree/tree_element.py:43-51 | fails with HieralchyError exactly when error_ok is off and the parent's kind is not a candidate; otherwise a fresh child below the parent |
| TreeElements.RemovesNum | jstatutree/tree_element.py:226-231 | _num is deleted exactly when some tag is "num" or "_num" |
| TreeBuilder.SkipPatternNamed | jstatutree/tree_builder.py:9-13 | exactly the names sentences, captions and provisions have a pattern; others raise KeyError |
| TreeBuilder.Resolve | jstatutree/tree_builder.py:23 | all names resolve, in order, or the first unknown name raises |
| TreeBuilder.SkipPatterns | jstatutree/tree_builder.py:23 | the skip list is 'UNK' followed by one pattern per enabled name |
| TreeBuilder.DefaultSkipPatterns | jstatutree/tree_builder.py:14-23 | the default names give UNK, captions, sentences and provisions |
| TreeBuilder.NearestIncluded | jstatutree/tree_builder.py:83-90 | the topmost included entry of the stack, or none exactly when no entry is included |
| TreeBuilder.PlacementOf | jstatutree/tree_builder.py:70-97 | an attachment point is an included entry of the stack |
| TreeBuilder.Builder.Init | jstatutree/tree_builder.py:14-24 | an empty buffer, stack and root, the flag off, and the given metadata, patterns and root tag |
| TreeBuilder.Builder.Flush | jstatutree/tree_builder.py:32-42 | the joined buffer becomes the last element's tail after an end and its text after a start; an occupied field raises and changes nothing; the buffer empties |
| TreeBuilder.Builder.Data | jstatutree/tree_builder.py:44-52 | the normalised, stripped text is appended to the buffer |
| TreeBuilder.Builder.Start | jstatutree/tree_builder.py:61-99 | the flush puts the joined buffer into the previous element's text, or its tail after an end; then a fresh element of the factory's kind is pushed excluded, attached to the nearest included entry, or made the root, as PlacementOf says; errors keep the stack; only the flushed element's text or tail and the attachment point's children change |
| TreeBuilder.Builder.Open | jstatutree/tree_builder.py:68-99 | the factory's error keeps the state; otherwise the new element is placed as PlacementOf says, and only the attachment point's children change |
| TreeBuilder.Builder.Place | jstatutree/tree_builder.py:70-99 | the element becomes the last one, MainProvision sets the flag, and the placement is applied, with the parent-candidate check on the stack top before attaching; every stack entry keeps its fields, and only the attachment point gains a child |
| TreeBuilder.Builder.Push | jstatutree/tree_builder.py:74-97 | an excluded element is pushed unused, a rooted one becomes the root, an attached one passes the parent-candidate check and is appended to the attachment point, and no other entry's children change |
| TreeBuilder.Builder.End | jstatutree/tree_builder.py:101-122 | the flush puts the joined buffer into the previous element's text, or its tail after an end; then the top entry is popped; a mismatched tag fails; MainProvision clears the flag; LawNum, LawTitle, Caption and Title texts go to the law data or the enclosing element; every other caption, title, lawnum and law title is kept, and the root is unchanged |
| TreeBuilder.Builder.Pop | jstatutree/tree_builder.py:107-122 | an empty stack raises IndexError; otherwise the top is popped and becomes the last element, a mismatched tag fails, and the LawNum, LawTitle, Caption and Title texts are recorded; a Caption or Title ending at the stack bottom raises IndexError; the captions, titles and law data that are not set are kept |
| TreeBuilder.Builder.TopEntries | jstatutree/tree_builder.py:107-120 | the entries end reads or writes are the top of the stack and the one below it |
| TreeBuilder.Builder.Close | jstatutree/tree_builder.py:26-30 | fails with missing end tags on a non-empty stack, with missing toplevel element without a root, and returns the root otherwise |
| TreeBuilder.NewBuilder | jstatutree/tree_builder.py:14-24 | an unknown skip name raises; otherwise a fresh, empty builder with the resolved patterns |
| TreeBuilder.OutsideMainExcluded | jstatutree/tree_builder.py:72-76 | outside a MainProvision only the root tag can enter the tree |
| TreeBuilder.RootPlacement | jstatutree/tree_builder.py:91-95 | an element becomes the root exactly when it has the root tag, is not skipped and no included entry is open |
| TreeBuilder.NoRootPlacement | jstatutree/tree_builder.py:96-97 | exactly a non-skipped, non-root element inside the main provision with no included entry raises |
| TreeBuilder.AttachedPlacement | jstatutree/tree_builder.py:83-90 | a non-skipped element with an included entry open is attached to the topmost one |
| TreeBuilder.SkippedExcluded | jstatutree/tree_builder.py:77-81 | a skipped element is never attached |
| TreeBuilder.UnknownSkipped | jstatutree/tree_builder.py:23 | UnknownElement is skipped by every builder |
| TreeBuilder.DefaultSkippedKinds | jstatutree/tree_builder.py:9-23 | the default patterns skip exactly UnknownElement, both captions, the paragraph, item and sub-item sentences, and MainProvision |
| TreeBuilder.SkippedKind | jstatutree/tree_builder.py:77-78 | reference definition; properties in TreeBuilder.SkippedKindIsSkipped and TreeBuilder.DefaultSkippedKinds |
| TreeBuilder.SkippedKindIsSkipped | jstatutree/tree_builder.py:77-78 | the skip test on the kind agrees with re.match of the patterns on the etype |
| TreeBuilder.Matches | jstatutree/tree_builder.py:9-13 | reference definition; properties in TreeBuilder.MatchesKindIsMatches and TreeBuilder.SubitemSentenceOf |
| TreeBuilder.MatchesKindIsMatches | jstatutree/tree_builder.py:9-13 | each pattern's re.match on an etype accepts exactly the kinds listed for it |
| TreeBuilder.SubitemSentenceOf | jstatutree/tree_builder.py:10 | Subitem<d>Sentence is matched by the sentences pattern alone |
| StatuteDicts.Admits | jstatute_dict.py:44 | reference definition; properties in StatuteDicts.AdmitsReikiOnly |
| StatuteDicts.AdmitsReikiOnly | jstatute_dict.py:20 | without only_reiki every source is stored; with it exactly those whose law number contains 条例 or 規則 |
| StatuteDicts.StatuteDict.constructor | jstatute_dict.py:14-16 | an empty dictionary with the given filter |
| StatuteDicts.StatuteDict.Set | jstatute_dict.py:18-21 | an admitted source is stored under its key and nothing else changes; a rejected one changes nothing; the length grows by one for a new admitted key |
| StatuteDicts.StatuteDict.Get | jstatute_dict.py:23-24 | the stored source, or KeyError exactly for a key never stored |
| StatuteDicts.StatuteDict.Len | jstatute_dict.py:26-27 | the number of stored keys |
| StatuteDicts.SubParenSuffix | jstatute_dict.py:52 | reference definition; properties in StatuteDicts.FirstOpenIsLeftmost and StatuteDicts.StripSegment |
| StatuteDicts.FirstOpenIsLeftmost | jstatute_dict.py:52 | the pattern \(.+?\)$ is searched leftmost-first |
| StatuteDicts.StripSegment | jstatute_dict.py:52 | the substitution strips the "(nums)" suffix from a code segment |
| StatuteDicts.NextKey | jstatute_dict.py:52-56 | reference definition; properties in StatuteDicts.NextKeyOfNode |
| StatuteDicts.NextKeyOfNode | jstatute_dict.py:52-56 | a node of the level's kind is keyed by its code, any other by its code + "/Level(1)" |
| StatuteDicts.Stored | jstatute_dict.py:47-58 | no levels write nothing; otherwise the key maps to the keys of the nodes the search for the first level yields |
| StatuteDicts.StoredFrame | jstatute_dict.py:47-58 | _set_tree writes exactly the keys it names and leaves every other entry as it was |
| StatuteDicts.SearchResultKeys | jstatute_dict.py:50-56 | the entry written lists, in search order, each node's code or its placeholder |
| StatuteDicts.PlaceholderKeys | jstatute_dict.py:52-54 | when every child overshoots the level, one placeholder key per child is written |
| StatuteDicts.TreeIndex.constructor | jstatute_dict.py:33-36 | the levels are kept sorted by (LEVEL, SUBLEVEL), as a permutation of those given |
| StatuteDicts.TreeIndex.Set | jstatute_dict.py:41-45 | a non-root value raises; an admitted root is indexed with the levels; a rejected one changes nothing |
| StatuteDicts.TreeIndex.SetFromReader | jstatute_dict.py:38-39 | a reader whose metadata is a plain LawData: its tree is indexed under that metadata's code, the law number, when the dictionary admits it; a non-root tree raises |
| StatuteDicts.TreeIndex.SetFromReikiReader | jstatute_dict.py:38-39 | a reader whose metadata is a ReikiData: its tree is indexed under the ReikiData code ("pp/mmmmmm/ffff" or the memo), which the read memoises, when its law number is admitted; a non-root tree raises; the code fields and id are unchanged |
| StatuteDicts.TreeIndex.SetTree | jstatute_dict.py:47-58 | the method leaves the store as Stored says |
| StatuteDicts.TreeIndex.SetResults | jstatute_dict.py:51-57 | the loop records each found node's key and indexes its subtree |
| StatuteDicts.SentencePrefix | jstatute_dict.py:116-122 | the prefix starts with "sentence-" and is exactly that without a level |
| StatuteDicts.LevelPrefixes | jstatute_dict.py:116-122 | a kind and its class name give the same prefix, and different kinds different prefixes |
| OldEtypes.OnlyLawIsParentless | etypes.py:279-412 | Law alone has no parent candidates, and it alone is a root |
| OldEtypes.ParentsShallowerExceptArticle | etypes.py:279-412 | parents are shallower except that Article (LEVEL 4) also accepts Chapter, Section, Subsection and Division |
| OldEtypes.KeyCollisions | etypes.py:279-412 | exactly three pairs of kinds share a (LEVEL, SUBLEVEL) key |
| OldEtypes.SortEtypes | etypes.py:276-277 | reference definition; properties in OldEtypes.SortEtypesCorrect, OldEtypes.SortEtypesExamples and OldEtypes.SortTwo |
| OldEtypes.SortEtypesCorrect | etypes.py:276-277 | sort_etypes returns a permutation in ascending (LEVEL, SUBLEVEL) order |
| OldEtypes.SortEtypesExamples | etypes.py:276-277 | Article moves before Division, and Article and Chapter, whose keys tie, keep their order |
| OldEtypes.SortTwo | etypes.py:276-277 | two kinds swap exactly when the second has the smaller key |
| OldEtypes.Eq | etypes.py:182-190 | __eq__ answers False only between two elements |
| OldEtypes.EqMeaning | etypes.py:182-190 | __eq__ holds exactly for equal chains, fails only on None against an element, and never fails at one depth |
| OldEtypes.EqSymmetric | etypes.py:182-190 | __eq__ is symmetric, errors included |
| OldEtypes.Lt | etypes.py:195-207 | reference definition; properties in OldEtypes.LtIrreflexive, OldEtypes.LtSiblings, OldEtypes.LtDifferentDepths, OldEtypes.LtUnequalParents and OldEtypes.LtAsymmetric |
| OldEtypes.LtIrreflexive | etypes.py:195-207 | no element is less than itself |
| OldEtypes.LtSiblings | etypes.py:195-206 | siblings at one LEVEL compare by number; at different LEVELs the comparison raises |
| OldEtypes.LtDifferentDepths | etypes.py:195-207 | elements at different depths cannot be compared |
| OldEtypes.LtUnequalParents | etypes.py:207 | unequal parents pass the comparison to the parents |
| OldEtypes.LtAsymmetric | etypes.py:195-207 | __lt__ is asymmetric |
| OldEtypes.Le | etypes.py:209-212 | reference definition; properties in OldEtypes.LeMeaning |
| OldEtypes.LeMeaning | etypes.py:209-212 | __le__ is equality, else __lt__ |
| OldEtypes.Inheritance | etypes.py:18-26 | succeeds exactly for a non-root kind below a parent candidate, giving a child of that parent; Law always raises, and other failures raise a NameError |
| OldEtypes.InheritanceChild | etypes.py:18-26 | a child sits one level below its parent and sorts among its siblings by number |
| OldEtypes.ArticleBelowDivision | etypes.py:316-319 | an Article can be attached below the deeper Division |
| OldEtypes.Top | etypes.py:249-254 | the top of a chain is a root or parentless |
| OldEtypes.Str | etypes.py:29-30 | reference definition; properties in OldEtypes.StrShape, OldEtypes.StrOfEmptyNamed, OldEtypes.StrOfMainProvision and OldEtypes.StrOfChapter |
| OldEtypes.StrShape | etypes.py:29-30 | __str__ starts with the law's name when the chain reaches a Law, with "None" otherwise, and ends with the element's name |
| OldEtypes.Name | etypes.py:64-76 | reference definition; properties in OldEtypes.EmptyName and OldEtypes.ChapterName |
| OldEtypes.EmptyName | etypes.py:64-76 | a kind without a JNAME has the empty name |
| OldEtypes.ChapterName | etypes.py:64-76 | a chapter is named 第n章 |
| OldEtypes.StrOfEmptyNamed | etypes.py:29-30 | an element with an empty name renders as its parent does |
| OldEtypes.StrOfMainProvision | etypes.py:253-254 | a law, its body and its main provision render as the law's name |
| OldEtypes.StrOfChapter | etypes.py:29-30 | a chapter below the main provision renders as the law's name followed by 第n章 |
| OldEtypes.ChildDict.Put | etypes.py:118 | storing a name replaces its entry; a new name goes last |
| OldEtypes.In | etypes.py:113 | membership is false exactly when every stored value compares unequal |
| OldEtypes.FindFrom | etypes.py:110-118 | a successful loop leaves a well-formed dict |
| OldEtypes.FindChildren | etypes.py:108-129 | the loop computes the reference FindChildrenOf |
| OldEtypes.FindChildrenDistinct | etypes.py:108-129 | distinct siblings with distinct names are all kept, in order |
| OldEtypes.RepeatRaises | etypes.py:113-117 | a child listed twice in a row raises |
| OldEtypes.SameNameOverwrites | etypes.py:118 | of two different siblings with one name, the second replaces the first |
| OldEtypes.Candidates | etypes.py:262-266 | the loop keeps at most the dict's entries |
| OldEtypes.GetEtypesCore | etypes.py:259-274 | the loop computes the reference EtypesCore |
| OldEtypes.Roots | etypes.py:267-269 | the roots are candidates whose is_root() answers True |
| OldEtypes.Others | etypes.py:270-271 | the others are candidates whose is_root() answers False |
| OldEtypes.Scan | etypes.py:262-274 | reference definition; properties in OldEtypes.ScanFound, OldEtypes.ScanOneRoot, OldEtypes.ScanNoRoot, OldEtypes.ScanTwoRoots and OldEtypes.ScanRootFirst |
| OldEtypes.ScanFound | etypes.py:262-274 | once the root is found, the result is it followed by the others, or a second root fails |
| OldEtypes.ScanOneRoot | etypes.py:262-274 | one root among the candidates comes first, followed by the others in order |
| OldEtypes.ScanNoRoot | etypes.py:272 | without a root the final assertion fails, listing every candidate |
| OldEtypes.ScanTwoRoots | etypes.py:268 | a second root fails with "root elem has to be unique." |
| OldEtypes.EtypesCore | etypes.py:259-274 | reference definition; properties in OldEtypes.GetEtypesCore, OldEtypes.EtypesCoreCases, OldEtypes.EtypesCoreNoIsRoot and OldEtypes.EtypesCoreOfModule |
| OldEtypes.EtypesCoreCases | etypes.py:259-274 | get_etypes_core returns the unique root first and the others in dict order, and fails with no root or more than one |
| OldEtypes.EtypesCoreNoIsRoot | etypes.py:267 | a first candidate without is_root fails with AttributeError |
| OldEtypes.CandidatesSkip | etypes.py:263-264 | entries that are not classes add no candidate |
| OldEtypes.CandidatesOfEntries | etypes.py:262-266 | classes with an etype, not TreeElement and not named after an Expansion, are all kept |
| OldEtypes.ScanRootFirst | etypes.py:262-274 | a root followed by non-roots comes out unchanged |
| OldEtypes.EtypesCoreOfModule | tests/jstatutree_test.py:11-25 | a module of non-class globals and a root followed by non-roots yields the root first and the rest in definition order, as for the dummy module |

## Left out

- XML ingestion is not modelled: the file reading and feeding loop, the XML readers, and ElementPath find/findtext/findall/iterfind. The builder is driven by its start, data and end calls.
- NFKC normalisation is a function parameter (`normalize`), as is `unicodedata` in general. `strip()` removes the characters of Python's `str.isspace`: the ASCII whitespace 0x09-0x0d and space, 0x1c-0x1f, U+0085, U+00A0, U+1680, U+2000-U+200A, U+2028, U+2029, U+202F, U+205F and U+3000.
- Decimal precision (28 digits), NaN and Infinity are not modelled: numbers are exact rationals.
- LevelDB and pickle persistence are not modelled. The key-value store of the level index is a map field, and `kvsdict.py` is not part of this model.
- `SourceInterface` opening and closing sources is not modelled. A stored source is a value with the metadata it reports.
- JStatutreeBatchWriter is left out: it uses attributes it never defines.
- The Neo4j/Cypher export, graphviz rendering, the batch and process-pool drivers, and the demo scripts are I/O and not modelled.
- `jstatutree.py`, `xml_jstatutree.py` and `etype_class.py` at the top level are not part of this model.
- TreeElement.copy, has_text, is_leaf, convert and the lawdata property are not modelled; neither are iter_texts or delete_values_recursively (a loop of delete_values over depth_first_iteration).
- Element.sentence, itersentence, keys, items, makeelement and `__repr__` are not modelled.
- Element `__str__` is not modelled, because the text form of a Decimal is not modelled.
- The debug prints of the builder are left out. The one before the parent-candidate check (`jstatutree/tree_builder.py:86`) formats `str()` of the attachment point and of the new element, which reads their `num`. For an element whose Num attribute is outside the number grammar that raises LawElementNumberError before the check, and it caches `_num` on both elements. TreeBuilder.Builder.Place attaches such an element and caches nothing.
- TreeBuilder.Builder.Start and TreeBuilder.Builder.End state the text and tail frame through their modifies clause: only text and tail of FlushTarget(), the element the buffer is flushed into, may change. End also frames the law data's name this way.
- TreeSearch.SortNodes: sorted() is modelled as a stable insertion sort under `__lt__`. Between children of different LEVELs `__lt__` holds both ways, so it is not an order there, and the order CPython's sort produces for such mixed siblings is not reproduced exactly. When a parent's LEVEL is not below its children's (a reader-supplied Law whose children are an UnknownElement and a LawBody), `__lt__` can fail, and sorted() raises there, where the model goes on sorting.
- TreeSearch.SentenceTexts: its own contract only bounds the length; what iter_sentences yields is stated in IterSentencesShape.
- The code of a root is an input (`rootCode`). The base class would read the code of a None parent; the readers supply `_code` for the root.
- TreeElement `_read_num` and `_read_text` are abstract, and what they return is an input: a Tree's readNum and rawText. `_read_children_list` is abstract too; its result is the `listed` field of a TreeElement, from which the children property builds the dict.
- TreeSearch: the searches, the iterations and iter_sentences read a node's children as the values its readers supplied (`Tree.children`, taken to be the children dict already built). They do not run `_find_children` over `_read_children_list` on the way down. The HieralchyError for a repeated equal child, and the replacement of a child by a later one with the same main number, are therefore not seen inside a search; TreeElements.TreeElement.Children models that step for one element.
- TreeSearch.Text: a virtual node's text is taken to be Preprocess of the empty string. The source runs the target class's `_read_text` on the virtual node, and that reader is not part of this model.
- Strings.PyInt: accepts ASCII digits only, where Python's int() accepts any Unicode decimal digit (such as full-width digits).
- TreeNodes.CodeSegment: writes main_num with IntToString. The source writes str() of the quantized Decimal, which is "-0" for a negative number from -0.5 up to 0 (it rounds half to even to a negative zero), where the model writes "0".
- The identity shortcut of `__eq__` is not modelled separately: the structural equality it short-cuts agrees with it on the same object.
- `is_root()` of a set value in JStatutreeKVSDict is read as "the kind is Law", the one root kind of the older registry; the level index uses the kind table and the search of the jstatutree package.
- In the older `etypes.py`: depth_first_search and depth_first_iteration are left out (depth_first_iteration calls itself with an undefined name), as are `__gt__` and `__ge__` (they take no argument), the lazy children/num/text properties, code, `__hash__`, delete_values and copy. Its `_read_num` names an undefined class, so an element's number is an input.
- The `str()` of a class that the "no root" assertion of get_etypes_core prints is an input string of each class.
- The test suite's dummy module imports get_etypes_core from the jstatutree package, which does not define it; the lemma about it uses the top-level `etypes.py` version.
- A module's globals are modelled as the ordered list of its dict items.
- Etypes.SortEtypes and OldEtypes.SortEtypes: the `*args, **kwargs` that sort_etypes passes on to sorted() (such as `reverse=True`) are not modelled; no caller passes any.
- The children dict (ChildDict, with Valid, Values and Put) and Names are defined in both TreeElements and OldEtypes, once over each module's own node type, because the newer and the older TreeElement have different node values.
- The metaclass machinery behind the kind classes is not modelled: each class is a value of the Kind datatype.
- The HieralchyError of the older `etypes.py` is modelled as the NameError it raises, because that module never imports the name.
