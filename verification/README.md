# Pengo and Peg in Dafny

A model of the core of the Pengo toy-language toolchain, with proofs about it. It has two parts.

- **Peg** is an LALR-style table generator. It augments the grammar with `Start' -> Start`. It builds item sets from closures with a memo, merging successor sets by (production, dot) core. It propagates lookaheads over the set graph and resolves nonterminal lookaheads to terminals. It then writes the Shift, Goto, Accept and Reduce cells and the per-production reduction metadata.
- **Pengo** is the language pipeline:
  - a character tokenizer with a keyword table, line and column counters and a final `_EOF` token;
  - the table-driven shift-reduce parser, with its concrete tables, which ends with a pass that reverses every node's children;
  - the collapser from parse tree to syntax tree;
  - a tree-walking interpreter. It has tagged values, a scope stack searched innermost first, then the global frame, then the built-ins, and user calls with an arity check and a stop flag.

Modules follow the source files:

| module | file | models |
|---|---|---|
| `Wrappers`, `Collections` | wrappers.dfy | `Option`/`Result` and sequence helpers |
| `Grammar` | grammar.dfy | symbols, productions, items, the augmented rule (peg.cpp) |
| `Closure` | closure.dfy | `generateClosures` with its `alreadyHad` memo |
| `ItemSets` | item_sets.dfy | `createItemSet`, `createSets` and the set worklist |
| `CollectClosures` | collect.dfy | `removeAndCollectClosures`, which nothing in the generator calls; it is modelled on its own and no other module uses it |
| `Lookaheads` | lookahead.dfy | `generateLookAheads` and the lookahead worklist |
| `Derive` | derive.dfy | `deriveLookAheads` |
| `Actions` | actions.dfy | `defineActions`, the metadata loop, `generateTypes`, `getSymbolName` |
| `Generator` | generator.dfy | `generateTables` |
| `Tokens`, `Tokenizer` | tokens.dfy, tokenizer.dfy | Token.h and Tokenizer.cpp |
| `ParserTables`, `ParseTree`, `ParseEngine` | parser_tables.dfy, parse_tree.dfy, parse_engine.dfy | Parser.h: the tables, the nodes and the reversal pass, and the loop |
| `Ast`, `Collapse` | ast.dfy, collapse.dfy | the syntax tree and Collapse.cpp |
| `Values` | values.dfy | Value.h, `visitBinary`, `visitLiteral`, `toString`, `std::stoi` |
| `Functions`, `Environments`, `Interpreter` | functions.dfy, environment.dfy, interpreter.dfy | Function.h/.cpp, Environment.h, Interpreter.cpp |

Modelling choices:

- **Symbols.** The generator compares symbols by name and kind only, as `Symbol::operator==` does. It works on these erased symbols; `trackInExp` is kept only for `generateTypes`.
- **Iteration order.** Where the source iterates a hash map, the model fixes an order. Groups of `createSets` come in order of first appearance of the dot symbol. Transitions are kept in creation order. Lookahead sets are walked in an arbitrary order chosen with `:|`, so what is proved holds for every order.
- **Lookahead links.** The `links` map of the lookahead worklist is a set of (source, target) pairs.
- **Errors.** Every path the source leaves undefined or ends with `exit` becomes an error result. This covers:
  - a missing child;
  - a `toString` of another tag;
  - overflow of a 32-bit `int`;
  - division by zero;
  - `std::stoi` out of range;
  - an undefined variable;
  - an arity mismatch;
  - an unexpected character;
  - a parse error.
- **Division.** C++ `/` truncates toward zero. It is modelled by `Values.TruncDiv`, not by Dafny's Euclidean `/`.
- **Fuel.** User functions may recurse without end, and the parse loop has no bound in the source. The interpreter and the parse engine therefore take a `fuel` argument and report `OutOfFuel` when it runs out.
- **Output.** Console output is an output trace (`State.out`) that `print`, `println` and print statements append to.
- **Function values.** A function value is modelled by its name in the function table.
- **Declaration order.** A declaration evaluates its initializer before it stores into the top frame (Pengo/src/Interpreter.cpp:55-61). The statement is `m_envStack.top().m_variables[statement->name.token] = evaluate(statement->exp)` (or the same on `m_globalEnvironment`), an overloaded assignment. C++17 sequences the right operand of such an assignment first. Before C++17 the order is unspecified, and the subscript might then insert the name before the initializer reads it. Under this order, `var x = x;` reads the outer `x`. Interpreter.DeclarationShadows relies on this order.
- **The Null payload.** A `Null` value's payload is the `int` 0, so `+` with `Null` adds 0, as `std::get<int>` on a default `Value` does.
- **The global frame.** It is default-constructed, so its kind is `Generic`. The `Global` kind exists but is never used.

## Model

| member | source | states |
|---|---|---|
| Grammar.SymbolEqIsKeyEquality | Peg/src/peg.cpp:24-27 | two symbols are equal exactly when name and kind agree; `trackInExp` plays no part |
| Grammar.ProductionEqIsErasedEquality | Peg/src/peg.cpp:49-54 | two productions are equal iff their left sides are equal and their right sides have the same length and are equal position by position |
| Grammar.AtEndIffNoDotSymbol | Peg/src/peg.cpp:63-66 | an item is at its end iff its pointer does not index a right-side symbol |
| Grammar.NextSymbol | Peg/src/peg.cpp:68-73 | the symbol after the dot symbol is a symbol of the rule, or the end marker `$` when the dot symbol is the last one |
| Grammar.AugmentErases | Peg/src/peg.cpp:149-154 | the augmented production is the nonterminal `Start'` deriving exactly the start symbol |
| Closure.GenerateClosures | Peg/src/peg.cpp:704-746 | there is one closure item per collected rule, in collection order. Each is a fresh prediction of a grammar rule (pointer 0, empty lookahead), and no rule appears twice |
| Closure.ClosureIsClosed | Peg/src/peg.cpp:709-719 | every rule predicted by a kernel item or by a closure item is in the closure |
| Closure.ClosureIsDerived | Peg/src/peg.cpp:716-737 | every closure rule is reached by a chain of predictions starting at a kernel item |
| Closure.ClosureRulesAreMemo | Peg/src/peg.cpp:721-733 | the closure holds exactly the rules the memo gained, without repetition |
| ItemSets.ItemSetIsClosure | Peg/src/peg.cpp:393-403 | a new item set starts with its kernel. The items after it are distinct fresh predictions of grammar rules. The set is closed: every rule one of its items predicts is in it as a fresh item |
| ItemSets.DotSymbols | Peg/src/peg.cpp:472-487 | the group keys are exactly the symbols after some dot, each once |
| ItemSets.Select | Peg/src/peg.cpp:473-486 | a group holds exactly the items whose dot symbol is its key |
| ItemSets.Advance | Peg/src/peg.cpp:492-495 | each item of a group has its pointer moved one step; rule and lookahead are unchanged |
| ItemSets.FindCore | Peg/src/peg.cpp:497-522 | the duplicate scan finds the first set with the same (production, pointer) sequence, and finds none exactly when no set has it |
| ItemSets.MergeLookaheads | Peg/src/peg.cpp:513-517 | merging into an existing set keeps its cores and unions the lookaheads item by item |
| ItemSets.AddSuccessor | Peg/src/peg.cpp:496-538 | a new core is appended with the next set number; a known core is merged into that set and becomes the target; the transition is recorded either way |
| ItemSets.GotoOfCore | Peg/src/peg.cpp:490-496 | the core of a successor depends only on the core of its source set, not on lookaheads |
| ItemSets.SetCountBounded | Peg/src/peg.cpp:523-527 | the sets have pairwise distinct cores, so their number is bounded by the grammar and the worklist ends |
| ItemSets.CreateSets | Peg/src/peg.cpp:469-540 | processing one set keeps the construction invariant: set numbers equal positions; cores are distinct; every transition targets the set with the successor's core; Shift and goto cells match the transitions |
| ItemSets.BuildSets | Peg/src/peg.cpp:154-163 | the worklist from state 0 ends with every set processed and every set reachable. State 0 still holds exactly the closure of the augmented item with lookahead `$`, because no successor merges into it |
| ItemSets.SuccessorNotInitial | Peg/src/peg.cpp:490-512 | no successor has the core of state 0. A successor's kernel items have their pointer past 0, and an empty kernel has an empty closure, so the duplicate scan never matches state 0 |
| ItemSets.StepKeepsInitial | Peg/src/peg.cpp:496-522 | adding a successor never targets state 0 and leaves its items unchanged |
| CollectClosures.CollectCores | Peg/src/peg.cpp:542-564 | the output has one item per core of the input and no repeated core |
| CollectClosures.CollectOrder | Peg/src/peg.cpp:545-561 | output items come in the order their cores first occur in the input |
| CollectClosures.CollectLookaheads | Peg/src/peg.cpp:550-556 | each output item's lookahead is the union of the lookaheads of all input items with its core |
| Lookaheads.Pass | Peg/src/peg.cpp:599-615 | a producer whose dot symbol is last passes its whole lookahead; otherwise it passes the symbol after the dot symbol |
| Lookaheads.PassStep | Peg/src/peg.cpp:601-614 | a pass only inserts, and a pass that changes a lookahead strictly shrinks the measure of missing symbols |
| Lookaheads.Within | Peg/src/peg.cpp:585-624 | the in-set closure loop only grows lookaheads and keeps them within the grammar's symbols |
| Lookaheads.CopyForward | Peg/src/peg.cpp:634-655 | on every transition, self-loops included, each advanced item of the successor ends with at least its old lookahead plus that of its unadvanced item in the source set as the copy began. On a transition to another set it ends with exactly that. `changed` is reported exactly when something new arrived |
| Lookaheads.CopyItemGainAt | Peg/src/peg.cpp:636-651 | one item's copy reads the source set as it is now; that set has kept its cores and only grown, so the item receives at least what it inherits from the original source set |
| Lookaheads.Relink | Peg/src/peg.cpp:656-662 | the edge is linked; when the successor changed, its own outgoing links are cleared; all other links stay |
| Lookaheads.CopyEdges | Peg/src/peg.cpp:627-665 | copying along the transitions of a set only grows lookaheads and either shrinks the missing-symbol measure or adds one bus entry per new link |
| Lookaheads.Propagate | Peg/src/peg.cpp:166-171 | the lookahead worklist ends, and it only grows lookaheads, keeping every cell's symbols within the grammar |
| Derive.DeriveOne | Peg/src/peg.cpp:672-700 | the derived set holds exactly the terminals reachable from the old lookahead by first-symbol steps |
| Derive.DeriveItems | Peg/src/peg.cpp:670-701 | every item of a set gets its derived lookahead; cores are unchanged |
| Derive.DeriveAll | Peg/src/peg.cpp:172-173 | every set's items get their derived lookaheads; numbers, transitions and cores are unchanged |
| Derive.DerivedTerminals | Peg/src/peg.cpp:680-698 | a derived lookahead holds only terminals and keeps every terminal it had |
| Actions.FirstIndex | Peg/src/peg.cpp:427-434 | the grammar index used for a reduction is the first position holding an equal production |
| Actions.ItemAction | Peg/src/peg.cpp:418-436 | only a completed item writes: the augmented item writes Accept; any other writes `R(i+1)` for the first equal production `i`; nothing is written when no production is equal |
| Actions.DefineActions | Peg/src/peg.cpp:412-439 | after the walk, a cell holds the action of the last item that wrote it, and cells no item wrote keep their earlier Shift |
| Actions.CellSource | Peg/src/peg.cpp:420-432 | every cell is a kept Shift or the action of a completed item of that set with that lookahead |
| Actions.ShiftKept | Peg/src/peg.cpp:418-436 | the walk writes no Shift: every old cell stays present, and a Shift cell afterwards is an old cell, unchanged |
| Actions.CellWritten | Peg/src/peg.cpp:418-436 | a completed item that asks for an entry has a cell under each of its lookahead names, holding an Accept or Reduce |
| Actions.Metadata | Peg/src/peg.cpp:283-298 | the metadata of a production is its rhs length, its nonterminal count, and `terminates` iff no rhs symbol is a nonterminal |
| Actions.AllMetadata | Peg/src/peg.cpp:283-298 | the metadata row of every production, in grammar order |
| Actions.GenerateTypes | Peg/src/peg.cpp:748-761 | the expression types are the left sides of the grammar, and the token types are the rhs symbols marked `trackInExp` |
| Actions.SubstitutionLookup | Peg/src/peg.cpp:142-145 | after a substitution is added, its symbol is named by the new type; other symbols keep their names; `getSymbolName` defaults to the symbol itself |
| Generator.GenerateTables | Peg/src/peg.cpp:147-185 | state 0 has the core of the closure of the augmented item, and its first item is the augmented item at pointer 0 with `$` among its lookaheads. Sets are numbered by position. The transition graph is the one createSets built: distinct cores, transitions to the successor cores, every set reached. Lookaheads are terminals. An Accept cell comes from a completed augmented item, and a Reduce k cell from a completed item of the first grammar rule equal to rule k; both sit under one of that item's lookahead names. Every completed item writes all its cells. Shift and goto cells are exactly the transitions', except shifts a reduction overwrote. The type names are collected, and `$` is substituted by `_EOF` |
| Generator.TablesBounded | Peg/src/peg.cpp:528-538 | every Shift and goto cell written during set construction targets an existing state |
| Generator.ActionCells | Peg/src/peg.cpp:412-439 | each Accept cell comes from a completed augmented item and each Reduce k cell from a completed item of the first grammar rule equal to rule k, in that state and with a lookahead naming the cell's column |
| Generator.CreateTables | Peg/src/peg.cpp:155-161 | the set worklist ends with the finished construction: sets numbered by position, state 0 exactly the closure of the augmented item with lookahead `$`, distinct cores, each transition leading to the set with the successor's core, Shift and goto cells exactly for the transitions, every set reached from an earlier one |
| Generator.ComputeLookaheads | Peg/src/peg.cpp:164-173 | propagation and derivation keep every set's number, transitions and item cores, so state 0 keeps the start core. They leave only terminals in every lookahead, and every terminal lookahead an item had before is still there |
| Generator.TerminalsKept | Peg/src/peg.cpp:164-173 | a terminal lookahead survives propagation, which only adds lookaheads, and derivation, where a terminal leads to itself |
| Generator.WriteActions | Peg/src/peg.cpp:176 | after the action walk, Accept and Reduce cells are explained as in ActionCells; every completed augmented or grammar item has a non-Shift cell under each of its lookahead names; every createSets cell is still present, and a Shift cell is one createSets wrote, unchanged |
| Generator.GraphOfShape | Peg/src/peg.cpp:164-173 | the transition graph of createSets (distinct cores, successor cores, reachability) holds for any sets with the same numbers, transitions and cores, so the lookahead phases keep it |
| Generator.TablesOfShape | Peg/src/peg.cpp:528-538 | the createSets tables hold exactly the transitions' goto and Shift cells |
| Tokenizer.Tokenize | Pengo/src/tokenizer/Tokenizer.cpp:14-23 | corrected: the scanner with the identifier scan of the Findings row. It succeeds with exactly one `_EOF` token, and that token is last |
| Tokenizer.TokenizeAsWritten | Pengo/src/tokenizer/Tokenizer.cpp:14-23 | as written, with the extra identifier step: a success also has exactly one `_EOF` token, and it is last |
| Tokenizer.TokensSpellSource | Pengo/src/tokenizer/Tokenizer.cpp:25-58 | corrected scanner: on text without quotes, scanning succeeds iff every character is accepted, and the token texts concatenate to the text without blanks |
| Tokenizer.BlankAddsNoToken | Pengo/src/tokenizer/Tokenizer.cpp:31-34 | space, tab and CR add no token; a newline adds no token, increments the line and resets the column |
| Tokenizer.SingleCharToken | Pengo/src/tokenizer/Tokenizer.cpp:35-43 | each of `! + - * / = ( ) ;` adds one token of its fixed type, with the character as text |
| Tokenizer.RejectedIffNotAccepted | Pengo/src/tokenizer/Tokenizer.cpp:45-56 | a character is rejected iff it is not a blank, single-character token, quote, digit or letter |
| Tokenizer.NumberToken | Pengo/src/tokenizer/Tokenizer.cpp:60-65 | a number token's text is the maximal run of digits from the token start, and its position is the column after it |
| Tokenizer.StringToken | Pengo/src/tokenizer/Tokenizer.cpp:67-79 | a string token's text is the characters strictly between the quotes; the line counter counts the newlines inside |
| Tokenizer.IdentifierToken | Pengo/src/tokenizer/Tokenizer.cpp:81-95 | corrected: an identifier's text is the maximal run of letters, digits and `_`, and `print`/`var` become keyword tokens |
| Tokenizer.IdentifierTokenAsWritten | Pengo/src/tokenizer/Tokenizer.cpp:81-95 | as written: the lexeme takes at least two characters whatever the second is, and a letter that ends the text makes a read past the end |
| Tokenizer.AddToken | Pengo/src/tokenizer/Tokenizer.cpp:97-105 | a token is appended with the current line and column, and nothing else changes |
| Tokenizer.StringLoop | Pengo/src/tokenizer/Tokenizer.cpp:69-75 | the loop stops at the first quote or at the end of the text, and passes no quote on the way |
| Tokenizer.StringLoopLines | Pengo/src/tokenizer/Tokenizer.cpp:69-73 | the line counter grows by the number of newlines the loop passes |
| Tokenizer.OneLetterAsWritten | Pengo/src/tokenizer/Tokenizer.cpp:83 | as written, `a;` scans as one identifier `a;` and the semicolon is lost |
| Tokenizer.OneLetterIntended | Pengo/src/tokenizer/Tokenizer.cpp:81-95 | corrected, `a;` scans as identifier `a`, then `;`, then `_EOF` |
| Tokenizer.LoneLetter | Pengo/src/tokenizer/Tokenizer.cpp:83-84 | as written, a lone letter at the end of the text is an error; corrected, it scans |
| ParserTables.ActionCell | Pengo/src/parser/Parser.h:59-203 | every Shift targets a state below 36; every Reduce names a rule in 1..24; Accept appears only at state 1 on `_EOF` |
| ParserTables.GotoCell | Pengo/src/parser/Parser.h:204-259 | every goto targets a state below 36 |
| ParserTables.Rule | Pengo/src/parser/Parser.h:260-283 | every metadata row pops at least one state and no more nodes than states; `terminates` holds exactly for the leaf rules, which pop no node |
| ParserTables.PengoWellFormed | Pengo/src/parser/Parser.h:9-10 | the concrete tables meet the well-formedness the engine relies on, with 24 rules |
| ParseTree.ReverseAll | Pengo/src/parser/Parser.h:339-349 | the pass keeps every node's type, flag and token and reverses its children at every depth |
| ParseTree.ReverseAllTwice | Pengo/src/parser/Parser.h:339-349 | reversing twice gives the tree back |
| ParseTree.PoppedFrontier | Pengo/src/parser/Parser.h:326-330 | after the reversal, a node's leaves read left to right are the popped nodes' leaves in stack order |
| ParseEngine.GotoState | Pengo/src/parser/Parser.h:318 | the state pushed after a reduce is the goto cell, and a missing cell reads as 0 |
| ParseEngine.ReduceBy | Pengo/src/parser/Parser.h:312-333 | a reduce pops `rhs` states and pushes the goto; a terminating rule pushes a leaf with the token before; any other rule pops `rhsNodes` nodes as children |
| ParseEngine.StepOf | Pengo/src/parser/Parser.h:293-337 | a Shift n cell consumes the front token, pushes state n, keeps the nodes and remembers the token. A Reduce k cell reduces by rule k (1-based). Accept returns the top node. An empty cell is an error at the token's line and position, and an unexpected-end error exactly on `_EOF` |
| ParseEngine.ParseTokens | Pengo/src/parser/Parser.h:285-350 | a parse that succeeds yields a tree whose nodes follow their rules' shapes and whose leaves are a subsequence of the input tokens |
| ParseEngine.ParseIsSound | Pengo/src/parser/Parser.h:285-350 | the same soundness for any well-formed tables |
| ParseEngine.PengoParseIsSound | Pengo/src/parser/Parser.h:285-350 | the same soundness for the concrete Pengo tables |
| ParseEngine.PengoAccepts | Pengo/src/parser/Parser.h:334-337 | with the Pengo tables, the loop accepts only in state 1 on `_EOF` |
| Collapse.DeriveToken | Pengo/src/Collapse.cpp:85-91 | a terminal gives its own token. A success is the first token the node spans, the first of its leaves. A failure is a missing child |
| Collapse.CollapseKeepsTokens | Pengo/src/Collapse.cpp:52-83 | an expression tree collapses to an expression whose tokens, left to right, are the tree's leaves, so wrapper nodes leave nothing behind |
| Collapse.DeriveStatementCases | Pengo/src/Collapse.cpp:23-50 | only the three statement tags make statements, and each keeps its derived expression (and name) |
| Collapse.Outermost | Pengo/src/Collapse.cpp:9-18 | only Statement nodes are collected, and the walk does not look inside them |
| Collapse.DeriveAllOk | Pengo/src/Collapse.cpp:14 | collapsing succeeds iff every collected node's first child derives, and gives one statement per node, in order |
| Collapse.DeriveAllExact | Pengo/src/Collapse.cpp:14 | when every node derives a statement, the result is exactly those statements, in node order |
| Collapse.WalkStep | Pengo/src/Collapse.cpp:9-18 | one turn of the stack walk either meets a Statement node that fails, and then the whole collapse fails, or keeps the collected statements in step with the outermost nodes and shrinks the stack |
| Collapse.CollapseParseTree | Pengo/src/Collapse.cpp:4-21 | the stack walk with the final reverse gives the statements of the outermost Statement nodes in document order |
| Values.IntPayload | Pengo/src/ast/Value.h:22-27 | an Integer's payload is its value, a Null's is 0, and other tags have none |
| Values.ToString | Pengo/src/Interpreter.cpp:130-136 | a String is unchanged and an Integer becomes its decimal text; other tags are errors |
| Values.ToStringIdempotent | Pengo/src/Interpreter.cpp:130-136 | converting the result again changes nothing |
| Values.StoI | Pengo/src/Interpreter.cpp:118 | parsing fails as invalid exactly when no digit follows the leading blanks and optional sign |
| Values.StoIDecimal | Pengo/src/Interpreter.cpp:118 | parsing the decimal text of any 32-bit integer gives it back |
| Values.TruncDiv | Pengo/src/Interpreter.cpp:100 | the quotient leaves a remainder smaller than the divisor that has the dividend's sign |
| Values.TruncDivUnique | Pengo/src/Interpreter.cpp:100 | that remainder property determines the quotient |
| Values.Checked | Pengo/src/Interpreter.cpp:86 | a result is an Integer iff it fits in 32 bits, and an overflow error otherwise |
| Values.BinaryOp | Pengo/src/Interpreter.cpp:72-111 | `+` with a String concatenates both texts, otherwise adds the payloads; `- * /` need two Integers and compute checked results; `/` by zero is an error. `/` by a nonzero Integer succeeds exactly when the quotient truncated toward zero fits 32 bits, and it yields that quotient, whose remainder has the dividend's sign and is smaller than the divisor in magnitude; other operand tags are a misuse at the operator's position |
| Values.ConcatAssociates | Pengo/src/Interpreter.cpp:77-82 | `+` is associative when the middle operand, or both outer ones, are Strings |
| Values.MixedPlusIsNotAssociative | Pengo/src/Interpreter.cpp:77-88 | `("n" + 1) + 2` is `"n12"` but `"n" + (1 + 2)` is `"n3"` |
| Values.TruncDivVsFloor | Pengo/src/Interpreter.cpp:100 | for a positive divisor, the source's truncating `/` equals floor division except on a negative dividend that is not a multiple, where it is one more |
| Values.NegativeDivision | Pengo/src/Interpreter.cpp:100 | `-7 / 2` evaluates to `-3`, where floor division gives `-4` |
| Values.LiteralValue | Pengo/src/Interpreter.cpp:113-122 | a Number literal is its parsed Integer, a String literal its text, and anything else Null |
| Values.LiteralRoundTrip | Pengo/src/Interpreter.cpp:118 | a Number literal spelled as the decimal text of an integer evaluates to that integer |
| Functions.BuiltinTable | Pengo/src/Function.h:7-11 | the table holds exactly `print`, `println`, `input`, `int` and `random`, each a distinct built-in with arity 1, 1, 0, 1 and 2 |
| Functions.CallBuiltin | Pengo/src/Function.cpp:37-63 | `print` appends the text of its first argument; `println` appends it with a newline; `int` parses a String; the result is Null except for `int` |
| Functions.PrintLnIsPrintThenNewline | Pengo/src/Function.cpp:37-47 | `println` writes what `print` writes, followed by a newline |
| Functions.ToIntOfDecimal | Pengo/src/Function.cpp:56-60 | `int` reads back the decimal text of any integer |
| Functions.ExtraArgumentsIgnored | Pengo/src/Function.cpp:37-60 | a built-in reads only as many arguments as its arity |
| Functions.Bind | Pengo/src/Function.cpp:17-20 | the call frame binds exactly the parameter names |
| Functions.BindLastWins | Pengo/src/Function.cpp:19-20 | a parameter not repeated later holds its own argument |
| Environments.NewFrame | Pengo/src/Environment.h:18-25 | a new frame has the given kind, no variables or functions, is not stopped and returns Null |
| Environments.GetVariable | Pengo/src/Environment.h:37-48 | a present name gives its value, and an absent one the error at the token's line and position |
| Environments.Declare | Pengo/src/Interpreter.cpp:58-60 | the declared name reads as the new value, and nothing else in the frame changes |
| Environments.ReadAfterDeclare | Pengo/src/Environment.h:32-42 | reading after declaring gives the declared value for that name and the old result for any other |
| Interpreter.FindInFrames | Pengo/src/Interpreter.cpp:140-142 | the search finds a name iff some frame binds it, and returns the innermost binding |
| Interpreter.FindVariable | Pengo/src/Interpreter.cpp:138-155 | a name is looked up in the innermost frame that binds it, then the global frame, then the function table; otherwise it is the undefined-variable error at its token |
| Interpreter.DeclareIn | Pengo/src/Interpreter.cpp:55-61 | a declaration writes only the top frame, or the global frame when the stack is empty |
| Interpreter.DeclarationShadows | Pengo/src/Interpreter.cpp:55-61 | after a declaration, looking the name up gives the declared value, even when an outer frame binds it |
| Interpreter.Eval | Pengo/src/Interpreter.cpp:63-128 | evaluating an expression changes nothing but the output |
| Interpreter.EvalArgs | Pengo/src/Interpreter.cpp:66-68 | arguments give one value each and change nothing but the output |
| Interpreter.EvalArgsAppend | Pengo/src/Interpreter.cpp:65-68 | arguments are evaluated left to right, each in the state the previous one left |
| Interpreter.UserCall | Pengo/src/Function.cpp:10-35 | a user call with the wrong argument count is an arity error; otherwise the body runs in a pushed frame binding the parameters; the call returns Null and leaves the stack as it found it |
| Interpreter.InvokeRefused | Pengo/src/Function.cpp:10-15 | a user call with the wrong number of arguments is the arity error |
| Interpreter.InvokeRuns | Pengo/src/Function.cpp:16-34 | a user call with the right number of arguments succeeds exactly when its body succeeds in a pushed frame that binds the parameters, and it returns Null |
| Interpreter.BodyRunsToEnd | Pengo/src/Function.cpp:23-34 | while the stop flag stays clear, a function body runs every statement in order and returns Null |
| Interpreter.ExecBody | Pengo/src/Function.cpp:23-34 | a body run keeps the stack depth and returns Null unless the frame is stopped |
| Interpreter.Exec | Pengo/src/Interpreter.cpp:37-61 | a statement changes only the variables of the top frame (or of the global frame) and the output; a block changes only the output |
| Interpreter.ExecSeq | Pengo/src/Interpreter.cpp:40-41 | a statement sequence changes only the variables of the current scope and the output |
| Interpreter.ExecSeqAppend | Pengo/src/Interpreter.cpp:28-29 | running two sequences in a row is running their concatenation; the first error stops the run |
| Interpreter.PrintAppendsLine | Pengo/src/Interpreter.cpp:50-53 | a print statement appends the value's text and a newline to the output |
| Interpreter.PopRestores | Pengo/src/Interpreter.cpp:39-42 | popping a pushed frame restores everything but the output |
| Interpreter.Interpret | Pengo/src/Interpreter.cpp:26-30 | a program ends with an empty frame stack and the built-in table unchanged |
| Interpreter.InterpretAppend | Pengo/src/Interpreter.cpp:26-30 | a program runs its statements in order: a concatenated program runs the second part after the first |

## Left out

- Code emission and debug printing of the generator (Peg/src/peg.cpp:187-281, 300-381, `ItemSet::print` at 89-117, the trace at 663): file writing and string templates. Only the metadata computation at 283-298 is modelled.
- The generator's `main` (Peg/src/peg.cpp:767-913): fixed configuration, not logic.
- Exact state numbers: the source iterates hash maps, so numbering depends on hash order. The model fixes one order and states properties that do not depend on it.
- Generator.GenerateTables: requires that the grammar does not already hold the augmented rule `Start' -> Start`. Without this, set cores could repeat and the termination bound is lost.
- Generator.GenerateTables: of state 0's lookaheads it states only that `$` stays on the augmented item. Propagation and derivation fill in the lookaheads of its closure items, and those are not stated exactly. It states that lookaheads are terminals, not which terminals each item gets; that is stated per phase by Derive.DeriveAll. It does not claim that the tables it builds equal the ones in Parser.h, which come from an older grammar.
- Generator.ComputeLookaheads: states that the phases keep the shape of the sets and leave only terminals, not which terminals each item ends with. Derive.DeriveAll states the derivation step exactly; the propagation is stated as growth only, as the next line says.
- Lookaheads.Propagate: states that the worklist ends, only grows lookaheads and keeps them within the grammar's symbols. It does not state that the result is a fixpoint of the propagation.
- Lookaheads.Within: states growth and the symbol bound, not which items gain which symbols. Each single pass is stated exactly by Lookaheads.Pass.
- ParseEngine.ParseIsSound: states soundness (shape and leaf subsequence) and not completeness. The parse loop runs on fuel; running out is `OutOfFuel`.
- ParseEngine.StepOf: the source's empty-cell branch prints, waits for a key and loops forever without changing either stack. The model ends with an error at that token.
- Interpreter.Eval: runs on fuel, which bounds the depth of user calls. It states the frame discipline (only the output changes), not a value for every expression; values are stated by Values.BinaryOp, Values.LiteralValue and Interpreter.FindVariable.
- Interpreter.ExecBody: nothing in the source sets a frame's `stop`, so the early-return path cannot be taken. The model keeps the check, and every user call returns Null.
- No statement of the language declares a function, and nothing in the source adds a `UserFunction` to the function table; only the built-ins are registered. Interpreter.UserCall, Interpreter.InvokeRuns and Interpreter.ExecBody therefore model code that no program reaches. They are kept because Function.cpp defines that behaviour.
- A user function's `args` is never set in the source. The model takes it to be the number of parameters.
- Tokenizer.Tokenize: the source text is a sequence of Unicode characters, where the source reads the `std::string` one byte at a time (Pengo/src/tokenizer/Tokenizer.cpp:107-116). The corrected scanner accepts a non-ASCII character only inside a string literal; elsewhere the default branch rejects it in both. The scanner as written (Tokenizer.TokenizeAsWritten) also absorbs the one character after an identifier's first letter, which the source takes as one byte. Where the model takes one character it counts one column and one character of the token text, while the source counts each UTF-8 byte. Columns after such a literal on the same line therefore differ, and so do the positions in `UndefinedVariable` and `OperatorMisuse` errors. The model does not promise the source's byte columns there.
- `Input` and `Random` (Pengo/src/Function.cpp:49-54, 74-78): stdin and a process-seeded generator. Calling them is the error `Unmodelled`.
- Float values, `ToFloat` and the Float branch of `ToInt` (Pengo/src/Function.cpp:61-72): floating point is not modelled. `int` of a non-String is the error `BadVariant`.
- The `std::cin.get()` pauses (Pengo/src/parser/Parser.h:304, Pengo/src/Interpreter.cpp:108): console waits.
- Pengo/src/main.cpp: file reading, command line and tree dumping.
- Pengo/src/IterableStack.h: the frame stack is a sequence. Pengo/src/Interpreter.h is a stale declaration and is not part of this model.
- Function.h declares no `params`/`body` on `UserFunction`, while Function.cpp uses them. The model gives user functions both.
- Token.h lacks the `Print` and `Var` types that the keyword table uses. The model's token types include them.
- The overflow of `INT_MIN / -1`, undefined in C++, is the overflow error like any other result outside 32 bits.

## Findings

| source | as written | input that shows it | evidently intended | confidence | as-written member | corrected member |
|---|---|---|---|---|---|---|
| Pengo/src/tokenizer/Tokenizer.cpp:83 | `tokenizeIdentifier` advances once unconditionally before its letter-or-digit loop. The character after the first letter is therefore always absorbed, and a letter that ends the text leads to a read past the end. | `a;` scans as Identifier `a;` and the semicolon is lost; `a` alone reads past the end | the lexeme is the maximal run of letters, digits and `_`: `a;` scans as Identifier `a`, Semicolon, `_EOF` | not executed | Tokenizer.OneLetterAsWritten | Tokenizer.OneLetterIntended |
