# A compiler front-end generator, modelled in Dafny

The system is a teaching compiler front end written in Java. It has two pipelines that build
parsing machinery from grammars. This project models both.

1. **Grammars, FIRST sets and LR(1) items.**
   - Symbols are terminals or nonterminals by a lexicographic rule on their names.
   - Productions are grouped by left side in first-occurrence order. The FIRST set of each
     nonterminal is computed by a memoised recursive scan, with a second pass for productions
     that mention their own left side.
   - LR(1) items (production, dot, lookahead) are identified by their rendering, for example
     `A->a•B,#`. Item sets are interned in a registry under the sorted renderings and get a
     creation-order index.
   - `closure` is a worklist fixed point. `Goto` advances the dot over a symbol, closes the
     result, interns it and memoises it in `GOTO_MAP`. ACTION entries are shift, reduce or accept.
2. **Right-linear grammar → NFA → DFA.**
   - Grammar lines such as `A->bB` are read into productions and into the terminal and
     nonterminal sets.
   - The NFA builder keeps one state per symbol plus one end state. Each production adds one
     edge labelled by its terminal.
   - The subset construction computes ε-closures and moves. It interns DFA states under the
     sorted ids of their NFA states and records an edge for every terminal label, from every
     state it reaches.

The Java static tables become explicit state:
- `ItemSetRegistry` holds `itemSets` and `total`.
- `GotoTable` holds `GOTO_MAP`.
- `DFAMap` is the DFA state registry.
- `DFAUtils` holds `DFAStateSet` and `DFAGraph`.
- `ParserUtils` holds `productionList`, `vtSet`, `vnSet`, `nfaStateMap` and `startNFA`.

Classes whose fields the source updates in place stay classes with `modifies` clauses: `FirstSet`,
`Grammar` (its memo), `NFAState`, the registries and the builders. Immutable records are datatypes:
`Symbol`, `Production`, `Item` and `ActionItem`.

Java exceptions and crashes become `Result` values with an `Error` tag:
- the validation exceptions of `Production.create`, `Grammar.creat` and advancing an item;
- index-out-of-bounds and null-pointer failures;
- the stack overflow of FIRST on indirect left recursion.

HashSet and HashMap iteration order is left open. `Collections.Enumerate` yields the elements in an
order that the model does not fix, and each result is proved for every such order.

Each file holds one module:

| file | module |
|---|---|
| `strings.dfy` | `String.compareTo`, sorting, delimited concatenation |
| `collections.dfy` | iteration over hash sets |
| `outcomes.dfy` | `Option`, `Result`, `Error` |
| `symbols.dfy` | `Symbol` |
| `productions.dfy` | `Production` |
| `first_sets.dfy` | `FirstSet` |
| `first_spec.dfy` | the reference definition of FIRST that `Grammar` is proved against |
| `grammar.dfy` | `Grammar` |
| `items.dfy` | `ProductionItem` |
| `item_sets.dfy` | both `ProductionItemSet` classes |
| `lr1.dfy` | `LR1Utils` |
| `actions.dfy` | `ActionItem` |
| `nfa.dfy` | `NFAState` |
| `dfa_state.dfy` | `DFAState` |
| `dfa_utils.dfy` | `DFAUtils` |
| `parser_utils.dfy` | `ParserUtils` |

## Model

| member | source | states |
|---|---|---|
| Symbols.NonterminalName | src/com/compiler/model/Symbol.java:17-22 | A name is a nonterminal exactly when it starts with an upper-case letter from A to Y or is exactly "Z"; everything else, the empty name included, is a terminal |
| Symbols.NewSymbol | src/com/compiler/model/Symbol.java:36-40 | The one-argument constructor keeps the content, is not an end marker and derives the terminal flag from the name |
| Symbols.NewSymbolWithEnd | src/com/compiler/model/Symbol.java:24-28 | The two-argument constructor keeps content and end flag and derives the terminal flag from the name |
| Symbols.NewSymbolExplicit | src/com/compiler/model/Symbol.java:30-34 | The three-argument constructor takes the terminal flag verbatim |
| Symbols.EndIsTerminal | src/com/compiler/model/Symbol.java:12 | END has content "#", is an end marker and is a terminal |
| Symbols.SameSymbolIsEquality | src/com/compiler/model/Symbol.java:72-77 | On symbols whose terminal flag comes from their name, equals (content and end flag) coincides with value equality, so the model's collections compare symbols as Java's do |
| Symbols.SameSymbolIgnoresIsVt | src/com/compiler/model/Symbol.java:72-82 | Two symbols that differ only in the terminal flag are equal to equals but are different values |
| Symbols.HashIsNotEnd | src/com/compiler/model/Symbol.java:36-40 | new Symbol("#") is a terminal that is not equal to END, because its end flag is false |
| Symbols.SymbolsOfString | src/com/compiler/model/Symbol.java:46-53 | createSymbolsByString gives one symbol per character, in order: its content is that character, and it is a well-formed non-end symbol |
| Symbols.SymbolsOfStringTerminals | src/com/compiler/model/Symbol.java:46-53 | The i-th symbol of a string is a terminal exactly when the i-th character is not an upper-case letter |
| Productions.Create | src/com/compiler/model/Production.java:24-29 | create fails exactly when the left side is missing or the right side is empty; otherwise the production holds exactly the two arguments |
| FirstSets.FirstSet.constructor | src/com/compiler/model/FirstSet.java:21-23 | A new FIRST set has the given start, no terminals and no ε |
| FirstSets.FirstSet.Add | src/com/compiler/model/FirstSet.java:29-31 | add(next) adds exactly next and leaves the ε flag alone |
| FirstSets.FirstSet.AddAll | src/com/compiler/model/FirstSet.java:37-39 | add(set) adds exactly the given set and leaves the ε flag alone |
| FirstSets.FirstSet.SetHasEpsilon | src/com/compiler/model/FirstSet.java:53-55 | setHasEpsilon sets only the flag; the terminals are unchanged |
| FirstSpec.SeqFirst | src/com/compiler/model/Grammar.java:205-226 | A symbol string whose last symbol is a terminal never derives ε |
| FirstSpec.SeqFirstEpsilonIff | src/com/compiler/model/Grammar.java:205-226 | ε is in FIRST of a string exactly when every symbol is a nonterminal that is absent from the memo or derives ε |
| FirstSpec.SeqFirstMembers | src/com/compiler/model/Grammar.java:206-223 | A terminal is in FIRST of a string exactly when some symbol reached after a run of ε-deriving symbols is that terminal, or is a nonterminal whose FIRST set holds it |
| FirstSpec.SeqFirstAppend | src/com/compiler/model/Grammar.java:206-223 | FIRST of a concatenation is FIRST of the first part, joined with FIRST of the second part only when the first part derives ε |
| FirstSpec.SeqFirstStable | src/com/compiler/model/Grammar.java:104-105 | Once the entries a scan reads are in the memo, growing the memo does not change FIRST of the string |
| FirstSpec.SeqFirstOnlyTerminals | src/com/compiler/model/Grammar.java:208-217 | FIRST of a string read off a memo of terminals holds only terminals |
| FirstSpec.SeqFirstTerms | src/com/compiler/model/Grammar.java:206-223 | FIRST of a string holds only the string's terminals and members of the memo's FIRST sets |
| FirstSpec.ScanStopsAtTerminal | src/com/compiler/model/Grammar.java:125-131 | A terminal reached by the scan ends it, and FIRST of the right side is what was gathered plus that terminal, without ε |
| FirstSpec.ScanPassesNonterminal | src/com/compiler/model/Grammar.java:134-140 | A nonterminal reached by the scan adds its FIRST set, and the scan goes past it exactly when that set has ε |
| FirstSpec.BadProds | src/com/compiler/model/Grammar.java:115-121 | The productions set aside for the second pass are non-ε productions that mention their own left side, taken from the list |
| FirstSpec.FirstPassEpsilonIff | src/com/compiler/model/Grammar.java:111-149 | The first pass puts ε into FIRST(v) exactly when some production is an ε-production, or has a right side without v that derives ε |
| FirstSpec.LeadingTerminalInFirst | src/com/compiler/model/Grammar.java:125-131 | A production whose right side starts with a terminal puts that terminal into FIRST of its left side, whichever pass handles it |
| FirstSpec.FirstOfNonterminalTerms | src/com/compiler/model/Grammar.java:126-169 | FIRST(v) holds only terminals of v's right sides and members of the memo's FIRST sets |
| FirstSpec.EquationsStable | src/com/compiler/model/Grammar.java:104-105 | Once FIRST(v) can be computed from the memo, growing the memo leaves it unchanged, so a stored entry stays right |
| FirstSpec.MemoSoundExtend | src/com/compiler/model/Grammar.java:176 | Storing FIRST(v) into a sound memo keeps every entry equal to the FIRST set its productions give, and keeps the old entries |
| Grammars.FirstOccurrenceSpec | src/com/compiler/model/Grammar.java:69-84 | The key order lists every left side once and nothing else |
| Grammars.ProductionsOfSpec | src/com/compiler/model/Grammar.java:69-84 | Each group holds exactly the productions with that left side, and is empty only for a symbol that is no left side |
| Grammars.KeyTerminalsSpec | src/com/compiler/model/Grammar.java:29-38 | The terminal set collected over the keys is exactly the set of terminals on the right sides of their productions |
| Grammars.Grammar.constructor | src/com/compiler/model/Grammar.java:24-39 | VnSet is the key set; VtSet is exactly the terminals occurring on some right side; the memo starts absent |
| Grammars.Grammar.Creat | src/com/compiler/model/Grammar.java:62-86 | It succeeds exactly when the list is non-empty and its first left side equals start; the two other cases are the two errors. On success the keys are the left sides in first-occurrence order and each key's list is its productions in input order |
| Grammars.Grammar.MemoStore | src/com/compiler/model/Grammar.java:176 | Storing the computed FIRST set keeps the memo sound and its sets within the grammar's terminals |
| Grammars.Grammar.GetFirstSet | src/com/compiler/model/Grammar.java:102-178 | Without a memo it fails. A memoised entry is returned with nothing changed. A missing nonterminal fails with a null pointer, and a nonterminal already under computation fails with a stack overflow. Otherwise the memo only grows, gains the entry and stays sound: every entry equals FIRST of its nonterminal as the reference definition computes it. With a memo it succeeds whenever v is safe: v has productions, is not under computation, and every other nonterminal on its right sides is safe with v under computation |
| Grammars.RankedSafe | src/com/compiler/model/Grammar.java:102-178 | A grammar whose nonterminals can be ranked so that every other nonterminal on a right side ranks lower (no recursion except direct left recursion) has every key safe, so its FIRST sets are all computed without error |
| Grammars.Grammar.ProductionPass | src/com/compiler/model/Grammar.java:111-150 | The first loop sets aside exactly the self-mentioning non-ε productions and leaves the FIRST set equal to the first pass of the reference definition; it succeeds when every other nonterminal of the productions is safe |
| Grammars.Grammar.LeftRecursivePass | src/com/compiler/model/Grammar.java:152-175 | After the second loop the FIRST set equals FIRST(v) of the reference definition; it succeeds when every other nonterminal of the productions is safe |
| Grammars.Grammar.AddNonterminal | src/com/compiler/model/Grammar.java:134-140 | The FIRST set of a nonterminal met by a scan is added and ends up in the memo; the result says whether it derives ε; it succeeds when the nonterminal is safe |
| Grammars.Grammar.ScanRight | src/com/compiler/model/Grammar.java:123-144 | The scan of a right side adds exactly FIRST of that right side, and reports ε exactly when the right side derives ε; it succeeds when every nonterminal of the right side is safe |
| Grammars.Grammar.ScanLeftRecursive | src/com/compiler/model/Grammar.java:152-174 | The scan of a self-mentioning right side adds FIRST of it with v read as an ε-only set when ε is already known, and as a stopper otherwise; it succeeds when every nonterminal other than v is safe |
| Grammars.Grammar.GetFirstSetMap | src/com/compiler/model/Grammar.java:184-193 | The first call fills a sound memo with every key; later calls return the same memo unchanged. The first call succeeds when every key is safe |
| Grammars.Grammar.GetFirstSetBySymbols | src/com/compiler/model/Grammar.java:200-227 | The result is FIRST of the string over the memo (skipping nonterminals absent from it), made only of terminals; a memo already there is not touched. It succeeds when a memo is there or every key is safe |
| Items.Create | src/com/compiler/model/ProductionItem.java:32-53 | create keeps production, dot and lookahead, and its content is the rendering of the three |
| Items.RenderRightSplit | src/com/compiler/model/ProductionItem.java:37-48 | The dot lands between right[..pos] and right[pos..] when pos is a position of the right side; any other pos leaves no dot |
| Items.CreateContent | src/com/compiler/model/ProductionItem.java:32-53 | The content is left + "->" + the right side with "•" before position pos + "," + lookahead, and has no "•" for a pos out of range |
| Items.CreateStart | src/com/compiler/model/ProductionItem.java:61-63 | The two-argument create is create with the dot at 0 |
| Items.CreateStartContent | src/com/compiler/model/ProductionItem.java:61-63 | The content of a start item has the dot before the whole right side |
| Items.Advance | src/com/compiler/model/ProductionItem.java:70-76 | Advancing fails exactly when the dot is at or past the end; otherwise production and lookahead are kept and the dot moves one place right |
| Items.FirstSymbols | src/com/compiler/model/ProductionItem.java:82-90 | getFirstSymbol is right[pos+1..] then the lookahead: its length is max(0, \|right\|-pos-1)+1 and its last element is the lookahead; a dot below -1 is an index error |
| Items.CompareItemsConsistent | src/com/compiler/model/ProductionItem.java:115-131 | compareTo is zero exactly when equals holds, and it is antisymmetric |
| Strings.Sort | src/com/compiler/lr1/ProductionItemSet.java:31-32 | Sorting the contents gives an ascending listing of the same strings, counted with multiplicity |
| Strings.SortOrderIndependent | src/com/compiler/lr1/ProductionItemSet.java:31-32 | Two listings of the same strings sort to the same sequence |
| Strings.TerminatedInjective | src/com/compiler/lr1/ProductionItemSet.java:33-36 | When no string holds the separator, appending each string with the separator loses no information |
| ItemSets.SortedContentsOfAnyOrder | src/com/compiler/lr1/ProductionItemSet.java:31-35 | The sorted contents do not depend on the order in which the set is visited |
| ItemSets.KeyDeterminesContents | src/com/compiler/lr1/ProductionItemSet.java:31-36 | When no content holds ';', two sets with the same key hold the same contents |
| ItemSets.ContentKey | src/com/compiler/lr1/ProductionItemSet.java:31-36 | The key built is the sorted contents, each followed by ';' |
| ItemSets.ItemSet.constructor | src/com/compiler/lr1/ProductionItemSet.java:18-23 | A new item set keeps its fields and increments the shared total |
| ItemSets.CompareIndex | src/com/compiler/lr1/ProductionItemSet.java:77-82 | compareTo orders item sets by index, that is, by creation order |
| ItemSets.ItemSetRegistry.constructor | src/com/compiler/lr1/ProductionItemSet.java:12-13 | The registry starts empty with total 0 |
| ItemSets.ItemSetRegistry.Create | src/com/compiler/lr1/ProductionItemSet.java:30-46 | (create is the same in src/com/compiler/model/ProductionItemSet.java.) A registered key returns the registered set with registry and total unchanged; a new key registers a new set whose index is the old total, and total grows by one; the registry stays valid (keys match, indices distinct and below total) |
| ItemSets.ItemSetRegistry.RegisteredIdentity | src/com/compiler/lr1/ProductionItemSet.java:68-82 | Among registered sets, equals, identity and equal index agree |
| Actions.CreateActionS | src/com/compiler/lr1/ActionItem.java:29-31 | A shift action has type "S", the given item set and no production |
| Actions.CreateActionR | src/com/compiler/lr1/ActionItem.java:38-40 | A reduce action has type "R", the given production and no item set |
| Actions.CreateActionAcc | src/com/compiler/lr1/ActionItem.java:46-48 | The accept action has type "ACC" and neither field |
| Actions.OnlyFactoryShapes | src/com/compiler/lr1/ActionItem.java:18-22 | Every action is one of the three factory results, and its type string tells which fields are set |
| Actions.GettersDetermineAction | src/com/compiler/lr1/ActionItem.java:7-22 | Two actions with the same type and fields are the same action |
| LR1.DotSymbol | src/com/compiler/lr1/LR1Utils.java:25-30 | The symbol after the dot is END at the end, the right side's symbol inside it, and an index error outside it |
| LR1.ExpandsIffNonterminalAfterDot | src/com/compiler/lr1/LR1Utils.java:25-32 | closure expands an item exactly when a nonterminal follows its dot; a dot at the end reads END, a terminal |
| LR1.AddItems | src/com/compiler/lr1/LR1Utils.java:41-50 | The inner loop adds every start item of the production with each lookahead, each new content once, pushing exactly the added items |
| LR1.AddAllItems | src/com/compiler/lr1/LR1Utils.java:40-51 | The same, over every production of the nonterminal |
| LR1.AddedGenerates | src/com/compiler/lr1/LR1Utils.java:34-51 | After the loops the popped item is fully expanded, and every added item is a start item of a production of B with a lookahead in FIRST(βa) |
| LR1.ExpandItem | src/com/compiler/lr1/LR1Utils.java:24-52 | One popped item: the result only grows, the item is expanded, each new item is one it generates, and the pushed items are exactly the new ones. It succeeds whenever the dot lies within the right side, every nonterminal of that right side has productions, and FIRST can be had (a memo is there or every key is safe) |
| LR1.GeneratedScoped | src/com/compiler/lr1/LR1Utils.java:40-48 | Generated items are start items over the grammar's productions and terminals, a finite universe, which bounds the loop |
| LR1.Expand | src/com/compiler/lr1/LR1Utils.java:22-53 | The worklist loop ends with a result that is closed under expansion of seeds and result items, together with an order of the added items in which each is generated by a seed or by an item added before it. It succeeds whenever FIRST can be had, every nonterminal on a right side of the grammar has productions, and every seed is expandable |
| LR1.ClosureStep | src/com/compiler/lr1/LR1Utils.java:24-52 | One round of the loop keeps the worklist invariant and the derivation order, succeeds when closure is ready to, and either adds an item of the finite universe or shrinks the stack |
| LR1.DerivationStep | src/com/compiler/lr1/LR1Utils.java:38-51 | The items one expansion adds extend the derivation order: each is generated by the popped item, which is a seed or an item added earlier |
| LR1.DerivedLeast | src/com/compiler/lr1/LR1Utils.java:22-53 | A derived result lies, by content, inside every closed set that keeps the start and agrees with it on shared contents: nothing is in it that expansion did not force |
| LR1.Closure | src/com/compiler/lr1/LR1Utils.java:18-55 | closure as written returns a set closed under expansion in which every item is generated, but which need not contain the seeds; every item is derived from the seeds in order, and it succeeds under the conditions of Expand |
| LR1.SeededClosure | src/com/compiler/lr1/LR1Utils.java:14-16 | CLOSURE(I) as documented: it contains I, is closed under expansion, and every other item is derived from I in order, so it is the least such set; it succeeds under the conditions of Expand |
| LR1.ClosureLeast | src/com/compiler/lr1/LR1Utils.java:14-16 | CLOSURE(I) lies, by content, inside every closed set of items holding I that agrees with it on shared contents |
| LR1.ClosureUnique | src/com/compiler/lr1/LR1Utils.java:14-16 | Two closures of the same items that agree on shared contents hold the same contents |
| LR1.ClosureDropsKernel | src/com/compiler/lr1/LR1Utils.java:19-21 | For the grammar S'->a and a kernel of items [S'->a•,b], whatever the lookahead b, the only sound result of closure as written is the empty set, so the kernel is lost |
| LR1.Kernel | src/com/compiler/lr1/LR1Utils.java:77-88 | The kernel of GOTO fails exactly when some item has a negative dot, and is otherwise keyed by content |
| LR1.KernelContents | src/com/compiler/lr1/LR1Utils.java:77-88 | The kernel holds exactly the advanced items with the symbol after the dot |
| LR1.KernelOfEnumeration | src/com/compiler/lr1/LR1Utils.java:77-88 | Whatever order the items are visited in, the kernel fails on a negative dot and is otherwise the set of shifted items |
| LR1.ComputeKernel | src/com/compiler/lr1/LR1Utils.java:76-88 | The loop builds the kernel: an index error exactly on a negative dot, otherwise the shifted items |
| LR1.AddToDoubleMap | src/com/compiler/lr1/LR1Utils.java:97-101 | addToDoubleMap creates the inner map when needed, sets one entry, leaves the others unchanged and returns the previous value |
| LR1.GotoTable.constructor | src/com/compiler/lr1/LR1Utils.java:58 | GOTO_MAP starts empty |
| LR1.GotoTable.Goto | src/com/compiler/lr1/LR1Utils.java:69-95 | A memoised answer is returned with nothing changed. Otherwise a negative dot is an index error, and an empty kernel gives null with the memo unchanged. In the remaining case the result is the interned closure of the kernel, memoised under the item set and symbol. It succeeds whenever no item has a negative dot, FIRST can be had, and every nonterminal on a right side of the grammar or of an item of I has productions |
| LR1.GotoTable.Compute | src/com/compiler/lr1/LR1Utils.java:76-94 | Goto without the memo lookup, with the same outcomes; it succeeds under the conditions of Goto |
| LR1.KernelReady | src/com/compiler/lr1/LR1Utils.java:76-94 | The kernel of an item set ready for GOTO is ready for closure: each kernel item is an item of the set with its dot moved one step, still within the right side |
| LR1.GotoTable.Successor | src/com/compiler/lr1/LR1Utils.java:89-94 | A non-empty kernel gives the interned closure of the kernel, memoised; it succeeds under the conditions of Expand for the kernel |
| LR1.GotoTable.Record | src/com/compiler/lr1/LR1Utils.java:91-93 | The closure is interned and stored in the memo under the item set and symbol |
| Nfa.WithEdge | src/com/compiler/parser/NFAState.java:34-42 | After adding an edge, its successor is under its label with the old ones, and the other labels are unchanged |
| Nfa.WithEdgeIdempotent | src/com/compiler/parser/NFAState.java:38-41 | Adding the same edge twice is adding it once |
| Nfa.WithEdgeCommutes | src/com/compiler/parser/NFAState.java:34-42 | Edges added in either order give the same transition map |
| Nfa.LabelIgnoresEndFlag | src/com/compiler/parser/NFAState.java:35-39 | Symbols differing only in the end flag share a label |
| Nfa.NFAState.constructor | src/com/compiler/parser/NFAState.java:18-21 | A state for a symbol has that id, no edges, and is neither start nor end |
| Nfa.NFAState.End | src/com/compiler/parser/NFAState.java:23-27 | The boolean constructor always makes the end state with id "END STATE", whatever the argument |
| Nfa.NFAState.AddEdges | src/com/compiler/parser/NFAState.java:34-42 | addEdges adds the successor under the symbol's content, keeping everything else |
| Nfa.NFAState.SetStart | src/com/compiler/parser/NFAState.java:72-74 | setStart sets only the start flag |
| Nfa.CompareStates | src/com/compiler/parser/NFAState.java:103-105 | compareTo is zero exactly on equal id contents and is antisymmetric |
| DfaStates.IdsPermutation | src/com/compiler/parser/DFAState.java:31-33 | Listings of the same NFA states list the same ids, counted with multiplicity |
| DfaStates.JoinTerminated | src/com/compiler/parser/DFAState.java:30-35 | Appending each id with ',' and deleting the last character joins the ids with ',', and gives "" for none |
| DfaStates.KeyOfAnyOrder | src/com/compiler/parser/DFAState.java:31-33 | The key does not depend on the order in which the set is visited |
| DfaStates.KeyDependsOnIdsOnly | src/com/compiler/parser/DFAState.java:28-50 | Distinct state objects with the same ids share a key, and so one DFA state |
| DfaStates.KeySmallSets | src/com/compiler/parser/DFAState.java:30-35 | The empty set has key "" (the dead state) and one state has its own id as key |
| DfaStates.ComputeKey | src/com/compiler/parser/DFAState.java:30-35 | The key built is the sorted ids joined by ',' |
| DfaStates.Flags | src/com/compiler/parser/DFAState.java:41-48 | The loop sets isStart exactly when some NFA state is a start state, and isEnd exactly when some is an end state |
| DfaStates.DFAState.constructor | src/com/compiler/parser/DFAState.java:15-21 | The constructor keeps its fields and registers the state under its key |
| DfaStates.DFAMap.constructor | src/com/compiler/parser/DFAState.java:9 | The DFA state registry starts empty |
| DfaStates.DFAMap.Create | src/com/compiler/parser/DFAState.java:28-50 | The result's key is the key of the NFA set. A registered key returns the registered state and changes nothing. A new key registers a new state over the set, with start and end flags computed as in the source |
| DfaStates.DFAMap.RegisteredIdentity | src/com/compiler/parser/DFAState.java:53-65 | Among registered states, equality by key is identity |
| Dfa.EpsClosureOf | src/com/compiler/parser/DFAUtils.java:18-40 | The ε-closure contains the input states and stays within the NFA |
| Dfa.EpsClosureClosed | src/com/compiler/parser/DFAUtils.java:24-38 | No ε-edge leaves the ε-closure |
| Dfa.EpsClosureLeast | src/com/compiler/parser/DFAUtils.java:28-35 | The ε-closure lies inside every ε-closed superset of the input, so it holds only states ε-reachable from the input |
| Dfa.PushSuccessors | src/com/compiler/parser/DFAUtils.java:26-36 | One popped state: its ε-successors not yet in the result are added and pushed, and the result stays within the closure |
| Dfa.Closure | src/com/compiler/parser/DFAUtils.java:18-40 | closure returns exactly the ε-closure of the input |
| Dfa.MoveSetAdd | src/com/compiler/parser/DFAUtils.java:98-104 | Moving from one more NFA state adds exactly its successors under the path |
| Dfa.Move | src/com/compiler/parser/DFAUtils.java:95-106 | move returns exactly the union of the successors under the path's content; a state without that label contributes nothing |
| Dfa.LabelsOfEnumeration | src/com/compiler/parser/DFAUtils.java:69-72 | The labels followed are the contents of the terminals other than ε, in whatever order vtSet is visited |
| Dfa.Successor | src/com/compiler/parser/DFAUtils.java:73-75 | Move then closure gives the NFA set whose key is the target key of the state under that label |
| Dfa.EdgesOkStep | src/com/compiler/parser/DFAUtils.java:77-84 | Adding the edge to the interned target of a label keeps the state's edges right and covers one more label |
| Dfa.InternStep | src/com/compiler/parser/DFAUtils.java:77-82 | Interning one more NFA set keeps every state of the state set the registered one for its key |
| Dfa.GrownStep | src/com/compiler/parser/DFAUtils.java:79-82 | A state is pushed exactly when its key is new to the state set |
| Dfa.ExploredStep | src/com/compiler/parser/DFAUtils.java:69-85 | One more label explored from a state keeps the exploration invariant |
| Dfa.ConstructionStart | src/com/compiler/parser/DFAUtils.java:61-65 | The construction starts with the start state in the state set and on the stack |
| Dfa.ConstructionStep | src/com/compiler/parser/DFAUtils.java:66-86 | Exploring a popped state keeps the construction invariant and either adds a state or shrinks the stack |
| Dfa.ConstructionComplete | src/com/compiler/parser/DFAUtils.java:66-86 | With the stack empty, every state found has an edge for every label, to the state of the set registered under the key of the ε-closure of the move |
| Dfa.DFAUtils.constructor | src/com/compiler/parser/DFAUtils.java:43-45 | The state set and the graph start empty |
| Dfa.DFAUtils.AddEdge | src/com/compiler/parser/DFAUtils.java:114-122 | addEdge sets the edge under the path's content, overwriting an earlier target and leaving other edges and states unchanged |
| Dfa.DFAUtils.Intern | src/com/compiler/parser/DFAUtils.java:77-82 | The DFA state for a set is interned; it joins the state set, and is reported new exactly when its key was not there |
| Dfa.DFAUtils.Follow | src/com/compiler/parser/DFAUtils.java:73-84 | One label of the loop: the edge under it goes to the interned target state, pushed if new; the only key it can add is that target |
| Dfa.DFAUtils.Explore | src/com/compiler/parser/DFAUtils.java:69-85 | All labels of the loop for one popped state: it ends with an edge for every label, and exactly the new states are pushed; every key it adds is the target of the popped state under one of the labels |
| Dfa.DFAUtils.Start | src/com/compiler/parser/DFAUtils.java:61-65 | The start state is the interned DFA state of the ε-closure of the start NFA state, added to the state set |
| Dfa.DFAUtils.Round | src/com/compiler/parser/DFAUtils.java:66-86 | One pop of the worklist keeps the construction invariant and makes progress over the finite set of keys |
| Dfa.DiscoveredStep | src/com/compiler/parser/DFAUtils.java:66-86 | The states pushed while exploring a popped state extend the discovery order, each the target of the popped state under a label |
| Dfa.DFAUtils.NFAToDFA | src/com/compiler/parser/DFAUtils.java:59-87 | The start state and every state added end with an edge for every non-ε terminal label, to the state of the state set registered under the key of the ε-closure of the move (only the key is stated, since distinct NFA sets can share a key); this includes the dead state with key "". Other states' edges are unchanged. Every state it adds is reachable from the start state: the returned order lists them, each the start state or the target under a label of a state listed before it |
| Parser.DashIndex | src/com/compiler/parser/ParserUtils.java:34-37 | The first '-' of the line, or none when the line has none |
| Parser.ParsesWritten | src/com/compiler/parser/ParserUtils.java:31-61 | Reading a written production A->bB or A->b gives it back: left side A, terminal b, and nonterminal B only when it is non-empty |
| Parser.LineShape | src/com/compiler/parser/ParserUtils.java:31-61 | A line fails exactly when it has no '-' or ends before the terminal. Otherwise it reassembles from its production, which has a one-character terminal and a non-empty nonterminal when there is one |
| Parser.ReadLeft | src/com/compiler/parser/ParserUtils.java:34-37 | The first loop reads the text before the first '-', and runs off the line exactly when there is none |
| Parser.ReadTail | src/com/compiler/parser/ParserUtils.java:44-47 | The second loop reads the rest of the line |
| Parser.ParseLine | src/com/compiler/parser/ParserUtils.java:31-61 | The per-line code gives the line's production or the index error |
| Parser.ParsedLines | src/com/compiler/parser/ParserUtils.java:25-66 | The productions read are those of the first lines in order; all lines are read exactly when all parse; otherwise the next line is the one that fails |
| Parser.SymbolSets | src/com/compiler/parser/ParserUtils.java:52-59 | vtSet gains the terminal of each production; vnSet gains each left side and each nonterminal |
| Parser.ParsedShaped | src/com/compiler/parser/ParserUtils.java:52-61 | Every production read has a one-character terminal and one or two right-side symbols |
| Parser.ParsedNext | src/com/compiler/parser/ParserUtils.java:28-62 | A line that parses after the earlier lines gives the next production read |
| Parser.ParserUtils.constructor | src/com/compiler/parser/ParserUtils.java:10-14 | The production list, vtSet, vnSet and the NFA state map start empty, with no start state |
| Parser.ParserUtils.ReadLine | src/com/compiler/parser/ParserUtils.java:31-62 | A line's production is appended, its terminal joins vtSet, its left side and nonterminal join vnSet; a failing line changes nothing |
| Parser.ParserUtils.ReadParse | src/com/compiler/parser/ParserUtils.java:19-75 | All productions of the lines up to the first failing one are appended in order, with their symbols added to vtSet and vnSet; it reports a failure exactly when some line does not parse |
| Parser.OutClosedForm | src/com/compiler/parser/ParserUtils.java:99-127 | A state's transition map after the productions, in closed form. Its labels are the old ones and the terminals of its productions. Under each label lie the old successors and the states of the matching productions' targets. The order of the productions does not matter |
| Parser.OutLabels | src/com/compiler/parser/ParserUtils.java:99-127 | The labels of a state after the productions are its old labels and the terminals of its productions |
| Parser.OutSuccessors | src/com/compiler/parser/ParserUtils.java:99-127 | The successors under a label are the old ones and the targets' states of the productions with that terminal |
| Parser.OutStep | src/com/compiler/parser/ParserUtils.java:100-126 | One more production changes only its left side's transition map, by one edge |
| Parser.OutNoProduction | src/com/compiler/parser/ParserUtils.java:99-127 | A symbol with no production keeps its transition map |
| Parser.WiringStart | src/com/compiler/parser/ParserUtils.java:89-97 | Before the loop the reused states keep their edges and the start and end states have none |
| Parser.WiringStep | src/com/compiler/parser/ParserUtils.java:100-126 | Wiring one more production keeps the invariant: states for the symbols seen, each with its transition map after those productions |
| Parser.ParserUtils.StateFor | src/com/compiler/parser/ParserUtils.java:102-107 | The state of a symbol is the one in the map, or a new empty one put under the symbol |
| Parser.ParserUtils.Ends | src/com/compiler/parser/ParserUtils.java:101-123 | The two ends of a production's edge: its left side's state, and the end state or its nonterminal's state, created when missing |
| Parser.ParserUtils.Link | src/com/compiler/parser/ParserUtils.java:100-126 | One production adds one edge labelled by its terminal, from its left side's state to the end state (A->b) or to B's state (A->bB) |
| Parser.ParserUtils.Wire | src/com/compiler/parser/ParserUtils.java:99-127 | The loop body for the i-th production extends the wiring from the first i productions to the first i+1 |
| Parser.ParserUtils.Begin | src/com/compiler/parser/ParserUtils.java:89-97 | A new start state under the first left side is marked start and kept as startNFA; a new end state goes under "END STATE" |
| Parser.ParserUtils.WireAll | src/com/compiler/parser/ParserUtils.java:99-127 | After the loop every state's transition map is its base map after all productions |
| Parser.ParserUtils.RegularGrammarToNFA | src/com/compiler/parser/ParserUtils.java:83-128 | Nothing changes without productions. Otherwise the first left side gets a new start state, kept as startNFA, and a new end state is added. The map then holds the old symbols, every symbol of the productions and the end marker, one state each. Each state's edges are its old edges (none for new states) plus one edge per production of its symbol |

## Left out

- Reading the grammar file: the lines are a parameter of `ReadParse`, and file and stream errors are not modelled.
- Printing: `toString`, `printNFAState`, `printDFAMap` and the `main` methods only format output.
- `Run.java`, `LR1Test.java`, `Token.java`, `TokenType.java`, `FollowSet.java` and `GotoItem.java` are not part of this model. The canonical collection, the ACTION/GOTO table builder, the shift-reduce driver and the tokenizer they call are not in the repository files.
- `Production.isEpsilon` is called by `Grammar.getFirstSet` but is not defined in `Production.java`. The model reads it as "the right side is the single symbol ε" (`Productions.IsEpsilon`).
- `Production.getIndex`, used by `ActionItem.toString`, is absent from the source too and is not modelled.
- `NFAState.setId`, `setEdges` and `setEnd`, and `ProductionItemSet.clone`, are never called by the modelled code. The id and the end flag are constants in the model.
- Strings.Compare, Symbols.SymbolsOfString and Parser.LineProduction: strings are sequences of Unicode code points, whereas Java strings are sequences of UTF-16 code units. A character outside the Basic Multilingual Plane is two surrogate `char`s to `charAt` and `createSymbolsByString`, but one character in the model. `String.compareTo` orders U+E000–U+FFFF after such characters, and the model orders them before. This affects the sort order of item contents, and so the keys of item sets and DFA states, only for grammars using such characters.
- Java's `hashCode` is not modelled beyond the equalities it follows. Hash sets of items are maps from content to item, and registries are maps from key to object.
- Grammars.Grammar.GetFirstSet: Java overflows the stack on indirect left recursion. The model carries the set of nonterminals under computation and returns `StackOverflow` when one is reached again.
- Grammars.Grammar.GetFirstSet: success is stated under `Safe`, a sufficient condition. It asks that every nonterminal on a right side be computable, not only those the scan reaches before a symbol that does not derive ε. The same holds for its helpers, `GetFirstSetMap` and `GetFirstSetBySymbols`.
- LR1.Expand: success is stated under `ClosureReady`, a sufficient condition. It asks that every nonterminal on any right side of the grammar have productions, not only those closure reaches. The same holds for `Closure`, `SeededClosure` and GOTO.
- LR1.ClosureLeast: leastness is stated against sets of items that agree with the closure on the contents they share, because items are identified by their content.
- Dfa.DFAUtils.NFAToDFA: the NFA is given as a ghost value closed under its edges (`NfaClosed`), and the result is stated against it. That `RegularGrammarToNFA` builds such an NFA is not proved.
- Parser.ParserUtils.RegularGrammarToNFA: the start flags of the states other than the new start state are not stated.
- Parser.ParserUtils.ReadParse: a malformed line makes `charAt` throw `StringIndexOutOfBoundsException`. Java catches only `IOException` and `FileNotFoundException` (ParserUtils.java:67, :72), so the exception leaves `readParseTXT`, and the productions of earlier lines stay added. The model keeps those productions and returns the exception as `Some(IndexOutOfBounds)`.
- DfaStates.DFAMap.Create: for an already registered key, the returned state is stated to carry that key, but not to hold the given NFA set. The registry invariant only ties each state to its key.
- LR1.GotoTable.Goto: the outer key of `GOTO_MAP` is the item set object, because the lr1 item set class overrides `equals` but not `hashCode`. Goto closes the kernel with the seeded closure; see Findings.

## Findings

| source | as written | input that shows it | evidently intended | confidence | as-written member | corrected member |
|---|---|---|---|---|---|---|
| src/com/compiler/lr1/LR1Utils.java:19 | `closure` starts its result empty and only pushes the given items, so the items of I are not in CLOSURE(I) unless expansion regenerates them | grammar S'->a, GOTO({[S'->•a,#]}, a): closure of the kernel {[S'->a•,#]} returns the empty set, and the accepting item is lost | CLOSURE(I) contains I, as the comment at line 14 says and as the ε-closure in DFAUtils.java:20 does | not executed | LR1.ClosureDropsKernel | LR1.SeededClosure |
