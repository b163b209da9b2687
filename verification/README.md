# TurboXSL, modelled and proved in Dafny

TurboXSL is a multithreaded XSLT engine: a stylesheet is interpreted over a document, bodies of
instructions may be handed to a thread pool, and a counting latch joins everything before the
result tree is serialised. Around that sit its own XML scanner, XPath compiler, template index,
arena allocator and MD5, and a logger with bounded buffers and rotating files. This project models
those parts and proves what they are for.

* **Fork and join** (`Activities`, `Confluence`, `ForkJoin`, `Bodies`, `Instructions`, `Meaning`, `Laws`,
  `Transform`, `TemplateTask`, `Nodes`). A node of the result tree is named by its path; an
  activity is one run of a template body; the threads, the queue and the latch interleave in any
  order. Evaluation of XPath is an arbitrary function of document and locals (`Oracle`), the fork
  decision is the one of `template_task_run` under any `t:fork` attributes, and the number of
  threads is arbitrary. The main results: when the join returns, the tree is the one of the
  sequential run and the meaning of the transformation, which one equation for each instruction
  determines (`Laws`); the latch always equals the number of tasks; every run is bounded.
* **XML** (`XmlTree`, `XmlModes`, `XmlScan`, `XmlNumerals`, `XmlLocal`, `XmlParser`, `XmlMarkup`, `XmlArena`,
  `XmlRoundTrip`, `XmlReferences`): the serialiser in its three modes and the twelve-state scanner with its
  pointer-linked nodes, what each kind of markup is read as, what references stand for, and the round trip.
* **Strings** (`Chars`, `Strings`): the UTF-8 codec and the growable buffer.
* **MD5** (`Md5Words`, `Md5Length`, `Md5Rounds`, `Md5Digest`, `Md5Stream`, `Md5Traces`, `Md5Runs`,
  `Md5Vectors`): the streaming implementation against RFC 1321, and the digests of its test suite; `Md5Runs`
  holds the words after each of the sixty-four steps of their blocks.
* **XPath** (`XPathSyntax`, `XPathText`, `XPathGrammar`, `XPathCompiler`): the recursive-descent
  compiler inverts a printer with minimal parentheses.
* **Sorting** (`Sorting`, `Selection`) and **templates** (`TemplatePatterns`, `Templates`).
* **Pool** (`Pool`): the queue as a linked list, and the shutdown protocol as a state machine.
* **Maps** (`HashChains`, `HashTable`, `XmlDict`), **arena** (`Arena`), **logger** (`LogBuffer`,
  `Rotater`).

Code that changes objects step by step is a class whose methods are proved against functions; the
functions carry the properties as lemmas. Protocols between threads are state machines over the
steps that one lock makes atomic.

Where a property one might expect fails, there is a failing input and the exact condition:

* `Strings.RoundTrip`: the decoder is 16 bits signed.
* `XmlReferences.ParsePrintIff` and `ReadBackExactly`, with `ReferenceIsLost`: the printer leaves `&#`
  alone, and the parser takes it for a reference.
* `Templates.Entry.TrieAgreesIff`, with `ShorterIsMissed`: the trie may pass a template that matches
  and end where there is none.
* `Templates.Entry.HeaviestIff`, with `HeavierIsMissed`: weights count steps to the node itself, keys
  do not; the condition is one on the registered patterns and the node.
* `Templates.Entry.FindSelect`: so the lookup as a whole gives the heaviest template that matches if and
  only if neither of the two happens, or a listed template outweighs every direct one anyway.
* `TemplatePatterns.KeyDecidesIffPure`, with `FirstStepIsNotEnough`: registration looks at the first
  step only.
* `Md5Stream.SameStateByChunks`, with `StateIsNotCanonical`: equal messages, different states.
* `Md5Stream.TopUpTest`: the 32-bit sum in front of the first copy.
* `XmlMarkup.PrintedInstruction` and `EmptyCData`: a printed processing instruction cannot be read back, and an
  empty CDATA section leaves its closing mark as text.
* `XmlNumerals.LargeReferenceMeans`: a reference above 2^32 - 1 is cut to 32 bits, above 2^64 - 1 after saturating.

Where the code and its documentation differ, the code is followed: the last `xsl:sort` is the most
significant (section 10 of XSLT 1.0 ranks the first highest); in sequence rotation one archive more
than `max_count` remains. In the XPath compiler the blank of the pattern `and ` also matches an
opening parenthesis and consumes it (src/xpath.c:1015-1029, 1542-1566), so `a and(b or c)` is compiled
as `(a and b) or c` and the closing parenthesis stays unread; the same holds for the other operators
spelled as words. The text read back has spaces around operators.

## Model

| member | source | states |
|---|---|---|
| `ForkJoin.Decide` | src/template_task.c:24-84 | a call becomes a task only with a pool, outside single mode, with the context back in default mode, and never where the attribute says no; without a pool or in single mode nothing changes |
| `TemplateTask.TemplateContext.TemplateTaskRun` | src/template_task.c:24-99 | the branches leave exactly the mode and decision of `Decide`; deny mode is entered only by the attribute deny and left for a task only by the attribute yes |
| `Nodes.Node.AddChild` | src/nodes.c:48-68 | the doubly linked child list grows by the child at its end, all other links stay |
| `Nodes.Node.LastChild` | src/nodes.c:56-59 | the walk along `next` ends at the last child |
| `Nodes.Node.AppendChild` | src/nodes.c:32-46 | the new node is fresh, empty and the last child |
| `Nodes.ListIsDetermined` | src/nodes.c:48-68 | the links of a node determine one child sequence, so a position names a child for good |
| `Activities.OneWriter` | src/instructions.c:302-336 | in every reachable configuration no node of the result tree has two activities that may append to it |
| `Activities.StepInv` | src/nodes.c:41-68 | every append and every new context keeps the tree well-formed and each node with one writer |
| `Confluence.Diamond` | src/nodes.c:48-68 | steps of two different activities commute exactly, tree and contexts |
| `Confluence.Confluent` | src/template_task.c:86-98 | if one complete schedule exists, every partial schedule extends to a complete one with the same length and result |
| `ForkJoin.NextGood` | src/template_task.c:12-22 | every step of every thread keeps: each unfinished activity is on exactly one call stack, the latch counts the tasks queued and running, no wake-up is lost, nobody returns early |
| `ForkJoin.RunIsSchedule` | src/threadpool.c:31-42 | every run of the threads is a schedule of the activities |
| `ForkJoin.JoinIsSafe` | src/shared_variable.c:41-85 | in every state of every run the latch equals the tasks queued or running; at zero no task is left and the waiter is not asleep; a return means zero; before that some thread can go on; child lists have one writer |
| `ForkJoin.ZeroMeansDone` | src/shared_variable.c:53-85 | a latch at zero means an empty queue, idle workers and a finished tree |
| `ForkJoin.NeverRaisedAgain` | src/template_task.c:126-127 | once zero the latch, the tree and the queue never change again, so releasing it cannot race with a later use |
| `ForkJoin.SomeThreadCanGoOn` | src/threadpool.c:31-42 | while tasks remain and there is a worker, the join cannot deadlock |
| `ForkJoin.ScheduleIsSerial` | src/transform.c:98-128 | any complete schedule has the same tree as the sequential run and as many steps |
| `ForkJoin.ParallelIsSerial` | src/template_task.c:101-130 | schedule independence: whatever forks and whatever the interleaving, at the return the tree is the one of the sequential run, node for node |
| `ForkJoin.ReturnedIsSerial` | src/template_task.c:101-130 | if some run returns, the sequential run terminates with the same tree |
| `ForkJoin.RunsAreBounded` | src/template_task.c:12-22 | no run makes more than 5n + 2 thread steps when the sequential run takes n |
| `ForkJoin.EveryRunEnds` | src/template_task.c:101-130 | so every run of any number of threads has a bound on worker steps; until the latch is zero a worker can go on, from then on the waiter returns at its next test, and once nobody can go on it has returned and no task is left |
| `Bodies.RunnerIsDisciplined` | src/transform.c:98-128 | the interpreter appends only to nodes it owns, for any instruction set whatever |
| `Instructions.InstructionsAreShaped` | src/instructions.c:8-475 | every instruction keeps the discipline of contexts: shared locals only in place, detached bodies on their own node |
| `Meaning.NodeRun` | src/transform.c:98-128 | a body run in place appends exactly the nodes of its meaning and leaves the locals of its meaning |
| `Meaning.CollectRun` | src/transform.c:77-96 | a body on a detached node collects exactly the nodes of its meaning and touches nothing else |
| `Meaning.MeaningIsBuilt` | src/instructions.c:302-336 | some schedule completes the transformation and leaves exactly the tree of its meaning |
| `Meaning.NeverEnds` | src/transform.c:160-183 | a body without a meaning keeps the engine busy for any number of steps |
| `Meaning.CompleteMeansDefined` | src/transform.c:633-718 | if the engine completes, the meaning is defined |
| `Transform.EngineIsSound` | src/transform.c:633-718 | the engine with the XSLT instructions meets the discipline for every stylesheet and document |
| `Transform.ResultIsMeaning` | src/transform.c:633-718 | for every stylesheet of instructions that leave the document alone, every document, number of threads and interleaving, when the join returns no task is left and the result tree is a placeholder over the meaning of processing the document's root, without a mode, parameters or variables, as the equations of `Laws` determine it |
| `Transform.MeaningTerminates` | src/transform.c:633-718 | a transformation with a meaning under these equations is over after a bounded number of steps in every run |
| `Meaning.ResultUnfolds` | src/transform.c:98-128 | the meaning of a body is its first instruction's, followed by what the rest means; a body without code leaves its variables |
| `Laws.TasksArise` | src/nodes.c:99-111 | only `xsl:element`, `xsl:call-template`, `xsl:for-each` and `xsl:apply-templates` offer their calls to other threads, the loops only for a node that is no text and has an element behind it |
| `Laws.PlainTextMeans` | src/transform.c:98-128 | a text of the stylesheet is copied, then comes the rest |
| `Laws.LiteralMeans` | src/transform.c:24-49 | a literal element with its attributes expanded in reverse order, its body below it over a copy of the variables, which stay as they were outside |
| `Laws.IncludeMeans` | src/transform.c:98-128 | included instructions stand in the place of the inclusion |
| `Laws.XslTextMeans` | src/instructions.c:384-395 | one text for each part, in order |
| `Laws.ValueOfMeans` | src/instructions.c:367-382 | one text with the value, nothing where there is none |
| `Laws.XslElementMeans` | src/instructions.c:180-208 | one element with the expanded name, the body below it over a copy of the variables |
| `Laws.IfMeans` | src/instructions.c:210-232 | the body in place if the test holds, and otherwise the rest alone |
| `Laws.ChooseWhenMeans` | src/instructions.c:234-286 | the body of the first `when` whose test holds |
| `Laws.ChooseOtherwiseMeans` | src/instructions.c:234-286 | the body of the last `otherwise` where none holds |
| `Laws.ChooseNothingMeans` | src/instructions.c:234-286 | nothing where none holds and there is no `otherwise` |
| `Laws.ForEachMeans` | src/instructions.c:302-336 | one placeholder for each selected node, in their order, filled by the body with that node as context over a copy of the variables |
| `Laws.ApplyTemplatesMeans` | src/instructions.c:69-145 | one placeholder for each selected node, or child without a selection, in order, filled by processing that node in the mode with the parameters given, or those of the context if none is |
| `Laws.ArgumentsThenNodesMean` | src/instructions.c:85-121 | parameters are evaluated in order, the later ones stand first; a body given as a parameter sees what the earlier ones left |
| `Laws.CallTemplateMeans` | src/instructions.c:8-67 | one placeholder filled by the named template on the same node, with the parameters given and without variables; nothing if there is no such template |
| `Laws.TemplateMeans` | src/transform.c:160-183 | a node with a template is that template's body, beginning without variables |
| `Laws.DefaultMeans` | src/transform.c:130-158 | a text without one is copied; any other node gives its children in order, texts copied and a placeholder for each other child processed in the same mode |
| `Laws.VariableSelectMeans` | src/variables.c:164-202 | the first variable of the name gets the value, which is computed with the name declared; a new one goes to the front |
| `Laws.VariableBodyMeans` | src/variables.c:164-202 | the variable becomes the fragment its body gives; the body sees it as an empty one |
| `Laws.ParamPassedMeans` | src/variables.c:208-225 | a passed parameter of that name, the first of them, becomes a new variable in front |
| `Laws.ParamDefaultMeans` | src/instructions.c:288-300 | without one the parameter is a variable with its default, or nothing |
| `Laws.CopyMeans` | src/instructions.c:397-446 | an element without its attributes or a text, with the body below; for any other node the body alone |
| `Laws.CopyOfNodesMeans` | src/transform.c:59-75 | each selected node with its whole subtree, in order |
| `Laws.CopyOfMeans` | src/instructions.c:338-360 | of a value a text, of nothing nothing, of a fragment a placeholder with the whole fragment, in which attributes are expanded again and comments are emptied |
| `Laws.NumberMeans` | src/instructions.c:461-465 | the text "1." |
| `Laws.CommentMeans` | src/instructions.c:467-471 | one comment with the printed nodes of the body |
| `Laws.ProcessingInstructionMeans` | src/instructions.c:473-478 | one instruction with the printed nodes of the body |
| `Laws.MessageMeans` | src/instructions.c:448-459 | nothing in the result; the body runs for its variables |
| `Strings.UnitsOfUtf` | src/strings.c:194-220 | one encoded code point of 1 to 0x7FFF decodes to itself in front of anything |
| `Strings.UnitsOfWide` | src/strings.c:194-220 | no code point from 0x8000 on decodes to itself |
| `Strings.RoundTrip` | src/strings.c:130-149 | the decoder inverts the encoder on a sequence if and only if all code points are 1 to 0x7FFF |
| `Strings.Utf8CharIff` | src/strings.c:130-149 | the bytes written are one character of RFC 3629, section 4, if and only if the code point is no surrogate and at most 0x10FFFF |
| `Strings.ValueOfUtf` | src/strings.c:130-149 | the bits of the bytes written, put together as RFC 3629 puts them together, are the code point, up to 0x1FFFFF |
| `Strings.PrefixFree` | src/strings.c:130-149 | no encoding begins another, so a text decomposes in one way |
| `Strings.Utf2Ws` | src/strings.c:194-220 | the loop computes that decoding, including the run past the terminator on a truncated end |
| `Strings.XmlString.constructor` | src/strings.c:89-97 | an empty buffer with room for the size and the terminator |
| `Strings.XmlString.AddChar` | src/strings.c:117-128 | the text grows by the character, across reallocation, and stays terminated |
| `Strings.XmlString.AddStr` | src/strings.c:157-176 | the text grows by the string, across reallocation, and stays terminated |
| `Strings.XmlString.AddUtf` | src/strings.c:130-149 | the text grows by the encoding of the code point |
| `XmlTree.PrintAppend` | src/output.c:66-140 | siblings print one after the other, nothing carries over |
| `XmlTree.PlaceholderIsTransparent` | src/output.c:135-138 | a placeholder prints like its children in its place, so forked and inlined bodies serialise alike |
| `XmlModes.HtmlIsXml` | src/output.c:54-134 | HTML output of any tree is XML output of the tree in which img, meta, hr, br, link and input are their start tag alone, empty elements have both tags, and below a script, at any depth, every text is verbatim |
| `XmlModes.TextIsXml` | src/output.c:82-104 | text output is XML output, tags and escapes included, with both tags for an empty element |
| `XmlModes.HtmlLikeXml` | src/output.c:66-140 | without those six, scripts and empty elements the two are the same |
| `XmlModes.TextLikeXml` | src/output.c:66-140 | and text output where no element is empty |
| `XmlTree.AddQuotedStr` | src/output.c:17-31 | appends the escaped text, leaving numeric references alone |
| `XmlTree.AddQuotedAttributeValue` | src/output.c:33-52 | appends the escaped value, quotes included |
| `XmlTree.AddAttributes` | src/output.c:75-81 | appends all attributes in list order |
| `XmlTree.OutputText` | src/output.c:124-134 | text is escaped, copied or wrapped as mode, flag and raw counter demand |
| `XmlTree.OutputElement` | src/output.c:72-107 | one element in any mode, the raw counter restored |
| `XmlTree.OutputNodes` | src/output.c:66-140 | the loop over siblings appends exactly the recursive print and restores the raw counter |
| `XmlScan.SkipBlanks` | src/parse.c:23-32 | the scan ends at the first character that is no blank |
| `XmlScan.MakeUnescapedString` | src/parse.c:72-84 | the buffer holds exactly the unescaped characters, with capacity enough |
| `XmlScan.AddUnit` | src/parse.c:35-69 | one character or entity is appended decoded and the cursor moves behind it |
| `XmlNumerals.NumeralNames` | src/parse.c:40-45 | the digits written for a number, decimal or hexadecimal, name it |
| `XmlNumerals.StrToUlReads` | src/parse.c:40-45 | digits of either base and either case are read as their number, which saturates at 64 bits, up to the first character that is none |
| `XmlNumerals.SignedReads` | src/parse.c:40-45 | blanks, a sign and a second mark of the base are passed over; with a minus sign the number counts down from 2^64 |
| `XmlNumerals.NothingReads` | src/parse.c:40-45 | without a digit behind them nothing is read |
| `XmlNumerals.ReferenceMeans` | src/parse.c:35-69 | every code point of 32 bits, written as a decimal or a hexadecimal reference with either mark and digits of either case, is read as that code point wherever it stands |
| `XmlNumerals.LargeReferenceMeans` | src/parse.c:40-45 | any digits whatever: their number saturated at 64 bits, and the low 32 of them |
| `XmlNumerals.UnfinishedReference` | src/parse.c:46-51 | without the semicolon it is a question mark, and reading goes on behind the digits |
| `XmlNumerals.NameMeans` | src/parse.c:52-62 | amp, quot, lt, gt and apos stand for their characters, wherever they stand |
| `XmlNumerals.BareAmpersand` | src/parse.c:63-66 | an ampersand in front of none of them, and of no hash, stands for itself |
| `XmlParser.StepProgress` | src/parse.c:122-305 | every turn of the scanner that goes on makes progress, on any text whatever |
| `XmlMarkup.NameCharacters` | src/parse.c:94-105 | names are made of letters, digits, hyphen, underscore and colon |
| `XmlMarkup.BlankCharacters` | src/utils.c:26-31 | blanks are tab, line feed, return and space |
| `XmlMarkup.CommentIsSkipped` | src/parse.c:140-150 | a comment ends at the first closing mark and leaves no trace |
| `XmlMarkup.CDataIsText` | src/parse.c:238-264 | a CDATA section is one text of exactly its characters, marked not to be escaped |
| `XmlMarkup.EmptyCData` | src/parse.c:238-264 | an empty one leaves its closing mark to be read as text |
| `XmlMarkup.DoctypeIsSkipped` | src/parse.c:265-269 | a document type ends at the first `]>`, and text can follow |
| `XmlMarkup.DoctypeOverruns` | src/parse.c:265-269 | without one the scan leaves the document |
| `XmlMarkup.InstructionIsSkipped` | src/parse.c:133-139 | a declaration or instruction ends at the first `?>` |
| `XmlMarkup.LostText` | src/parse.c:127-132 | outside all elements, or behind an instruction, characters up to the next bracket are lost |
| `XmlMarkup.BangIsRefused` | src/parse.c:166-168 | any other exclamation mark rejects the document |
| `XmlMarkup.PrintedComment` | src/output.c:108-114 | a printed comment without the closing mark in it is read as nothing |
| `XmlMarkup.PrintedCData` | src/output.c:124-134 | a text printed verbatim as CDATA comes back, marked verbatim |
| `XmlMarkup.EscapedCData` | src/output.c:124-134 | one printed as CDATA and escaped comes back with its references |
| `XmlMarkup.PrintedInstruction` | src/output.c:115-123 | a printed processing instruction ends with a bracket alone, so that the scan leaves the document unless a `?>` follows somewhere |
| `XmlMarkup.TagBegins` | src/parse.c:170-190 | a bracket, blanks, a name and blanks open a tag with that name |
| `XmlMarkup.AttributeIsRead` | src/parse.c:221-303 | a name, an equals sign and a value in quotes of any of three kinds, blanks between them, is one attribute in front of the others, its value unescaped up to the next quote of that kind |
| `XmlMarkup.AttributeAlone` | src/parse.c:221-236 | without an equals sign its value is empty |
| `XmlMarkup.UnquotedValue` | src/parse.c:292-303 | without a quote too, and the scan goes on behind the character after the name |
| `XmlMarkup.TagEnds` | src/parse.c:212-216 | a bracket opens the element |
| `XmlMarkup.TagCloses` | src/parse.c:217-220 | a slash and a bracket end it without children |
| `XmlMarkup.EndTagCloses` | src/parse.c:192-204 | a closing tag closes the innermost element if its name begins that element's, and is skipped up to its bracket |
| `XmlMarkup.EndTagIsRefused` | src/parse.c:205-208 | any other rejects the document |
| `XmlMarkup.TextIsRead` | src/parse.c:270-291 | character data up to the next bracket or the end is one text, unescaped |
| `XmlMarkup.DocumentEnds` | src/parse.c:122-307 | at the end the innermost open element is returned, with the element whose tag is unfinished as its last child |
| `XmlArena.Parser.CloseState` | src/parse.c:192-208 | a closing tag relinks `current` to the parent exactly as the tree of open elements says |
| `XmlArena.Parser.AttributeName` | src/parse.c:221-236 | an attribute goes to the front of the list |
| `XmlArena.Parser.AttrValueState` | src/parse.c:292-303 | a quoted value is stored unescaped; without a quote the scan resumes after the name |
| `XmlArena.Parser.TextState` | src/parse.c:270-291 | text up to the next tag becomes the last child of the current element |
| `XmlArena.Parser.CDataState` | src/parse.c:238-264 | a character data section becomes an unescaped text node |
| `XmlArena.Parser.TakeTurn` | src/parse.c:122-305 | every one of the states does to the linked nodes what the scanner's turn does to the tree |
| `XmlArena.DoParse` | src/parse.c:107-307 | the pointers built are exactly the tree recognised, all sibling and parent links in place, and failure is reported exactly when the scanner fails |
| `XmlRoundTrip.ReadEscaped` | src/parse.c:72-84 | an escaped text without references is read back unchanged |
| `XmlLocal.UnescapeLocal` | src/parse.c:72-84 | what a text or value stands for depends on nothing around it, up to the character it ends at |
| `XmlRoundTrip.ParseOfPrint` | src/output.c:66-140 | any well-formed sibling list comes back with its structure and names, its attribute lists reversed, and every text and value read as it would be alone |
| `XmlReferences.ParsePrintIff` | src/output.c:17-140 | it comes back turned if and only if no text or value in it holds `&#` |
| `XmlReferences.ParsePrint` | src/output.c:66-140 | so parsing a serialised tree without `&#` gives it back with every attribute list reversed |
| `XmlReferences.ParsePrintTwice` | src/parse.c:107-307 | two round trips give the tree itself |
| `XmlReferences.NeverLonger` | src/parse.c:35-69 | printed and parsed a text never gets longer, and with a reference in it gets shorter |
| `XmlReferences.ReadBackExactly` | src/output.c:17-52 | a text or value survives printing and parsing if and only if no `&#` occurs in it |
| `XmlReferences.ReferenceIsLost` | src/output.c:17-31 | a four-character text that comes back as a tab |
| `Md5Words.FFIsF` | src/md5_loc.h:63 | the optimised first function is F of RFC 1321 on all words |
| `Md5Words.FGIsG` | src/md5_loc.h:64 | the second, by exchanged arguments, is G on all words |
| `Md5Words.CyclicIsRotate` | src/md5_loc.h:73 | the two shifts are the rotation for every amount used |
| `Md5Words.Turned` | src/md5_loc.h:84-105 | the common part of the step macros is add, rotate, add |
| `Md5Rounds.FirstRound` | src/md5.c:142-158 | the sixteen written-out steps load the words and are the first sixteen of the table-driven loop |
| `Md5Rounds.SecondRound` | src/md5.c:160-176 | and the next sixteen, with the word order of the table |
| `Md5Rounds.ThirdRound` | src/md5.c:178-194 | and the next |
| `Md5Rounds.FourthRound` | src/md5.c:196-212 | and the last |
| `Md5Digest.FoldAppend` | src/md5.c:126-223 | processing whole blocks in two calls equals one call |
| `Md5Vectors.EmptyDigest` | src/md5.c:289-455 | the digest of the empty message is d41d8cd98f00b204e9800998ecf8427e, as appendix A.5 of RFC 1321 has it |
| `Md5Vectors.AbcDigest` | src/md5.c:126-223 | that of "abc" is 900150983cd24fb0d6963f7d28e17f72 |
| `Md5Vectors.LongDigest` | src/md5.c:126-223 | that of the sixty-two letters and digits, which take two blocks, is d174ab98d277d9f5a5611c2c9f419d9f |
| `Md5Stream.FourRounds` | src/md5.c:126-223 | one turn of the block loop is the compression function of the RFC |
| `Md5Stream.AddCount` | src/md5.c:114-120 | the two-word counter is the byte count modulo 2^64 |
| `Md5Stream.LengthWords` | src/md5.c:442-448 | the masks, shifts and the or of the two counters give the length in bits modulo 2^64, low word first |
| `Md5Length.LowWordIs` | src/md5.c:442 | bit by bit, mask and shift keep the low 29 bits and multiply them by eight |
| `Md5Length.HighWordIs` | src/md5.c:447-448 | bit by bit, the other word and the top three bits meet nowhere, so the or is their sum |
| `Md5Stream.Padding` | src/md5.c:394-455 | the pad computed is the one of RFC 1321 section 3.1 and fits the buffer |
| `Md5Stream.Md5.constructor` | src/md5.c:289-299 | the empty message has been consumed |
| `Md5Stream.Md5.ProcessBlock` | src/md5.c:92-226 | any number of whole blocks are folded into the chain and counted |
| `Md5Stream.Md5.TopUp` | src/md5.c:324-373 | filling the buffer keeps the message consumed so far, with a full block possibly left; it fails exactly where the copy would run past the buffer |
| `Md5Stream.Md5.Process` | src/md5.c:324-373 | on every chunk and fill level the message consumed grows by the chunk, unless the 32-bit sum of the first test wraps, which is reported |
| `Md5Stream.Md5.Finish` | src/md5.c:394-455 | the signature is the digest of the message consumed |
| `Md5Stream.TopUpTest` | src/md5.c:324-373 | the 32-bit test decides like the true sum if and only if the sum does not wrap; where it wraps, everything is to be copied and does not fit |
| `Md5Stream.StateIsNotCanonical` | src/md5.c:324-373 | for every message of 128 bytes: fed at once it leaves an empty buffer, fed as 65 and 63 a whole block, so the states differ |
| `Md5Stream.KeptIs` | src/md5.c:324-373 | a chunk leaves what exceeds whole blocks, but a whole block if and only if it brings the fill level to 64, or a non-empty buffer to 192 |
| `Md5Stream.LevelIs` | src/md5.c:324-373 | after any chunks the fill level is the length modulo 64, or 64 where the last chunk ends with a whole block |
| `Md5Stream.SameLevelIff` | src/md5.c:324-373 | two ways to feed one message leave the same fill level if and only if its length is no multiple of 64, or both or neither end with a whole block |
| `Md5Stream.SameStateIff` | src/md5.c:324-373 | two contexts with the same message are in the same state if and only if their fill levels agree |
| `Md5Stream.SameStateByChunks` | src/md5.c:324-373 | two contexts fed one message in chunks are in the same state if and only if its length is no multiple of 64, or both or neither way of feeding it ends with a full block |
| `Md5Stream.Buffer` | src/md5.c:478-491 | the one-call form gives the digest of RFC 1321 |
| `Md5Stream.Chunked` | src/md5.c:324-455 | chunk invariance: every split of every message gives the digest of the whole message, unless some chunk, at the fill level it meets, makes that sum wrap |
| `XPathSyntax.CharacterClasses` | src/utils.c:34-47 | the characters of names and of selections, by their codes |
| `XPathSyntax.SpineTokens` | src/xpath.c:1414-1538 | a left-associative chain is its first operand and what each turn of the loop reads |
| `XPathSyntax.FlatTokens` | src/xpath.c:1542-1595 | an n-ary union, and, or is its operands with the operator between |
| `XPathSyntax.AtolShow` | src/xpath.c:1218-1316 | a printed number is read back |
| `XPathCompiler.Cursor.SkipWs` | src/xpath.c:1002-1013 | the cursor stops at the next token |
| `XPathCompiler.Cursor.Match` | src/xpath.c:1015-1029 | the cursor moves exactly when the pattern fits, a blank in it matching white space or a parenthesis |
| `XPathCompiler.Cursor.DoSelect` | src/xpath.c:1050-1214 | reads back any step or call in front of any continuation that may follow it |
| `XPathCompiler.Cursor.Arguments` | src/xpath.c:1184-1201 | reads back the argument list of a call, whatever its length |
| `XPathCompiler.Cursor.DoNode2` | src/xpath.c:1218-1316 | reads back any operand: parenthesised, literal, number, variable, rooted or selecting |
| `XPathCompiler.Cursor.DoNode` | src/xpath.c:1320-1354 | reads back steps and filters in order |
| `XPathCompiler.Cursor.DoUnion` | src/xpath.c:1358-1384 | reads back a union |
| `XPathCompiler.Cursor.DoNot` | src/xpath.c:1388-1410 | reads back a negation and nothing else as one |
| `XPathCompiler.Cursor.DoMul` | src/xpath.c:1414-1438 | reads back products, quotients and remainders, left to right |
| `XPathCompiler.Cursor.DoAdd` | src/xpath.c:1442-1463 | reads back sums and differences, left to right |
| `XPathCompiler.Cursor.DoRel` | src/xpath.c:1467-1504 | reads back comparisons, left to right |
| `XPathCompiler.Cursor.DoEq` | src/xpath.c:1507-1538 | reads back equalities, left to right |
| `XPathCompiler.Cursor.DoAnd` | src/xpath.c:1542-1566 | reads back a conjunction |
| `XPathCompiler.Cursor.DoOr` | src/xpath.c:1570-1595 | reads back a disjunction |
| `XPathCompiler.Compile` | src/xpath.c:1598-1605 | compiling the text of an expression with minimal parentheses terminates and returns exactly that expression |
| `Sorting.CaseIsDictionary` | src/strings.c:26-32 | negative exactly if, with the letters A to Z lowered, the first text is a proper beginning of the second or has the smaller character at the first place where they differ; zero exactly if they are equal then |
| `Sorting.TextCompareIs` | src/strings.c:26-32 | the same for optional texts, a missing one below all others |
| `Sorting.NumberCompareIs` | src/xpath.c:528-541 | negative exactly for the smaller number, zero exactly for equal ones |
| `Sorting.TextIsOrder` | src/strings.c:26-32 | the comparison without case, missing strings first, is a total preorder |
| `Sorting.NumberIsOrder` | src/xpath.c:528-541 | so is the comparison of numbers |
| `Sorting.SwapInversion` | src/xpath.c:528-559 | swapping two neighbours out of order removes exactly one inversion, which is why the sort ends |
| `Sorting.SortedIsStable` | src/xpath.c:528-559 | when no neighbours are out of order the permutation is the stable one |
| `Sorting.StableIsUnique` | src/xpath.c:528-559 | there is only one stable order |
| `Sorting.OnePass` | src/instructions.c:311-318 | a stable sort on top of earlier passes is lexicographic with the last pass most significant |
| `Selection.SortedMeans` | src/xpath.c:528-559 | of any two nodes of a sorted selection the first has the smaller key, or the larger if descending, or the keys are equal and it stood first before |
| `Selection.PassMeans` | src/xpath.c:528-559 | a sort prefers one node to another exactly if its key is smaller, or larger if descending, by number or by text without case |
| `Selection.LexMeans` | src/instructions.c:311-318 | the order of several sorts, spelled out in keys, the last sort first |
| `Selection.BubblePass` | src/xpath.c:528-559 | a pass permutes nodes and keys together and either removes an inversion or finds everything in order |
| `Selection.Bubble` | src/xpath.c:528-559 | the loop without a bound terminates with the stable order of the keys |
| `Selection.Context.Fill` | src/xpath.c:512-526 | the tables hold the nodes and their keys |
| `Selection.Context.Relink` | src/xpath.c:561-569 | the list is the table, linked both ways and numbered from one |
| `Selection.Context.SortSelection` | src/xpath.c:484-576 | the selection returned is the stable ordered permutation for the sort's type and direction, consistently linked and numbered |
| `Selection.SortAll` | src/instructions.c:311-318 | one pass per sort orders the selection lexicographically, the last pass most significant; any two nodes of the result stand as their keys say, by that sort, then the one before it, in the end as they stood |
| `TemplatePatterns.MatchIff` | src/templates.c:286-433 | any chain accepts a node if and only if each step before the first that decides finds a node, one level up for every name and star before it, with the name it asks for, and the deciding step is the root on the root, or the context, or a test that holds there |
| `TemplatePatterns.AcceptsIffPrefix` | src/templates.c:286-433 | a pure pattern (names and steps to the node itself, then the context or the root) accepts a node if and only if its key is a prefix of the path of the node |
| `TemplatePatterns.KeyDecidesIffPure` | src/templates.c:170-210 | of the chains that registration takes for direct, the key decides acceptance in every document if and only if the chain begins with a name and has no wildcard and no test |
| `TemplatePatterns.OwnNamesRejected` | src/templates.c:286-433 | a chain with a wildcard or a test rejects the elements of exactly its own names, which the trie would give it |
| `TemplatePatterns.KeyInjective` | src/templates.c:170-210 | different pure patterns without steps to the node itself have different keys |
| `TemplatePatterns.FirstStepIsNotEnough` | src/templates.c:170-210 | a chain that registration takes for direct although the trie would accept nodes it does not match |
| `Templates.DeepestIsLongest` | src/templates.c:440-457 | the lookup ends at the longest path of the trie that is a prefix of the node's |
| `Templates.Entry.FindPattern` | src/templates.c:104-122 | finds a template of that pattern if and only if one is listed or in the trie |
| `Templates.Entry.Add` | src/templates.c:124-221 | a known pattern gets the new content; a new one goes to the trie, the list or the special slots, everything else unchanged |
| `Templates.Entry.Register` | src/templates.c:170-210 | the trie takes the template in and stays an index of all direct ones, the last of a key winning |
| `Templates.Entry.Descend` | src/templates.c:440-452 | the walk down the trie and up the document ends at the deepest node |
| `Templates.Entry.FindSelect` | src/templates.c:435-472 | the result is what the trie gives or a strictly heavier listed template that matches, and no matching listed one is heavier, nor as heavy and registered later; where the key decides what direct patterns accept, the result is the heaviest of all that match, direct and listed, if and only if the registered keys give the heaviest direct one or a listed one that matches outweighs every direct one whose key begins the node's |
| `Templates.Entry.SearchList` | src/templates.c:459-469 | beginning with what the trie gave, the loop ends with the heaviest matching template, and of listed ones of equal weight with the one registered last |
| `Templates.Entry.TrieIsBest` | src/templates.c:440-457 | what the trie gives matches the node, and the direct templates that match are those whose keys begin its key; none is heavier unless weights count steps to the node itself |
| `Templates.Entry.GivesReached` | src/templates.c:440-457 | the trie gives the template registered last under the longest beginning of the node's key that begins a registered key |
| `Templates.Entry.HeaviestIff` | src/templates.c:435-472 | where that beginning is registered, no matching direct template is heavier than the one given if and only if no pattern whose key begins it has more untraced steps than the difference of the keys makes up for, which is a condition on patterns and node alone |
| `Templates.HeavierIsMissed` | src/templates.c:435-472 | with patterns `a/./b` and then `a/b`, whatever the names, an element b below a below the root gets the second although the first matches and is heavier |
| `Templates.Entry.TrieAgreesIff` | src/templates.c:440-457 | trie and direct matching agree on a node if and only if the longest beginning of its path that begins a registered key is itself registered, or no beginning of its path is |
| `Templates.Entry.DeepestIsReach` | src/templates.c:440-452 | the lookup gets exactly as far as the registered keys lead |
| `Templates.Entry.FoundIff` | src/templates.c:452-456 | and finds a template if and only if a key is registered there |
| `Templates.Entry.AcceptedIff` | src/templates.c:286-433 | some direct template matches if and only if a beginning of the path is a registered key |
| `Templates.ShorterIsMissed` | src/templates.c:435-472 | with patterns b and x/a/b, whatever the names, an element b below a below the root gets no template although b matches it |
| `Pool.Queue.constructor` | src/unbounded_queue.c:22-52 | the dummy head makes an empty open queue |
| `Pool.Queue.Enqueue` | src/unbounded_queue.c:75-99 | the contents grow by the value at the end, closed or not |
| `Pool.Queue.Take` | src/unbounded_queue.c:115-127 | the first value leaves, its entry becomes the new dummy |
| `Pool.Queue.Dequeue` | src/unbounded_queue.c:101-128 | nothing from a closed queue, the first value of an open one, a wait exactly when it is open and empty |
| `Pool.RunGood` | src/threadpool.c:80-98 | in every run, once closed, queued entries and stop tasks to come cover the workers inside the wait |
| `Pool.DeliveredInOrder` | src/unbounded_queue.c:75-128 | what has been delivered is a prefix of what was sent, the queue the rest |
| `Pool.NobodyBlocks` | src/threadpool.c:80-98 | after the last stop task no worker that has not exited is stuck |
| `Pool.ClosedStepsAreBounded` | src/threadpool.c:31-42 | once closed every worker makes at most three more steps |
| `Pool.ShutdownEnds` | src/threadpool.c:80-98 | so the owner can join all workers |
| `HashTable.Table.constructor` | src/zlog/src/zc_hashtable.c:28-59 | an empty table stands for the empty map |
| `HashTable.Table.Find` | src/zlog/src/zc_hashtable.c:151-163 | finds the entry of a key if and only if the map has it |
| `HashTable.Table.Get` | src/zlog/src/zc_hashtable.c:165-177 | the value of the map, or none |
| `HashTable.Table.Put` | src/zlog/src/zc_hashtable.c:179-232 | the map is updated at the key, for any hash function; a table with more than 1.3 entries a chain doubles before a new key, so that bound is never exceeded by more than one entry |
| `HashTable.Table.Rehash` | src/zlog/src/zc_hashtable.c:114-149 | twice the chains, the same entries, every link right again |
| `HashTable.MoveAll` | src/zlog/src/zc_hashtable.c:130-143 | both loops move every entry exactly once into well-linked chains |
| `HashTable.Table.Remove` | src/zlog/src/zc_hashtable.c:234-278 | the key leaves the map, an absent key changes nothing |
| `HashTable.Table.Clean` | src/zlog/src/zc_hashtable.c:91-112 | the empty map |
| `HashTable.Table.Begin` | src/zlog/src/zc_hashtable.c:280-293 | the first entry of the order, none only when there is none |
| `HashTable.Table.Next` | src/zlog/src/zc_hashtable.c:295-312 | exactly one entry more has been passed, none only when all have |
| `HashTable.Table.ForEach` | src/zlog/src/zc_hashtable.c:280-312 | the iteration visits every entry exactly once, as many as counted |
| `HashChains.WithoutForward` | src/zlog/src/zc_hashtable.c:262-272 | unlinking a member leaves the forward links of its chain right |
| `HashChains.PushForward` | src/zlog/src/zc_hashtable.c:222-227 | pushing in front leaves the forward links right |
| `LogBuffer.WrittenIsLimited` | src/zlog/src/buf.c:505-545 | over every sequence of outputs the bounded buffer holds the unbounded text, cut once and overlaid once |
| `LogBuffer.OverlayTwice` | src/zlog/src/buf.c:141-152 | truncating again changes nothing |
| `LogBuffer.Outcome` | src/zlog/src/buf.c:505-545 | what fits is added exactly; otherwise the longest prefix that fits, under the truncate string |
| `LogBuffer.Buffer.constructor` | src/zlog/src/buf.c:87-138 | an empty buffer within its limits |
| `LogBuffer.Buffer.Resize` | src/zlog/src/buf.c:160-205 | success means the room asked for, refusal means the limit is reached, and the limit is never exceeded |
| `LogBuffer.Buffer.Truncate` | src/zlog/src/buf.c:141-152 | the last bytes are overlaid, the length stays |
| `LogBuffer.Buffer.Append` | src/zlog/src/buf.c:505-545 | the text is the limited concatenation; full is returned if and only if it overflows |
| `LogBuffer.Buffer.Message` | src/zlog/src/buf.c:268-637 | after any outputs, plain, padded, decimal and hexadecimal in any order, a restarted buffer holds the concatenation of their texts, cut once and overlaid once |
| `LogBuffer.Buffer.AdjustAppend` | src/zlog/src/buf.c:548-635 | the same for a padded and cut string on either side |
| `LogBuffer.Buffer.PrintDec32` | src/zlog/src/buf.c:268-331 | the same for the decimal digits with leading zeros |
| `LogBuffer.Buffer.PrintDec64` | src/zlog/src/buf.c:333-422 | the same for 64-bit numbers |
| `LogBuffer.Buffer.PrintHex` | src/zlog/src/buf.c:424-502 | the same for hexadecimal digits |
| `LogBuffer.DigitsName` | src/zlog/src/buf.c:268-331 | the digits name the number, without a leading zero |
| `LogBuffer.DigitsBound` | src/zlog/src/buf.c:268-331 | they fit the table they are spelled into |
| `LogBuffer.SpellBackwards` | src/zlog/src/buf.c:268-331 | spelling from the last digit gives those digits |
| `Arena.ServedIsThrifty` | src/allocator.c:232-256 | serving any number of bytes, with or without growth, keeps every chunk at least twice its predecessor and the space of an entry that has grown below four times the bytes in use |
| `Arena.FewChunks` | src/allocator.c:232-253 | so the number of chunks is logarithmic in the bytes in use |
| `Arena.Memory.SpaceBound` | src/allocator.c:232-256 | in every valid state the bytes in use are the sum of the lengths of the regions returned from the entry, and both bounds hold for that sum |
| `Arena.Memory.OwnedIff` | src/allocator.c:255-256 | a region counts for an entry exactly if it lies in one of its chunks |
| `Arena.Run` | src/allocator.c:132-261 | after any calls of any threads the regions are those the allocations returned, of the sizes wanted, zeroed and pairwise apart, and every entry that has grown has reserved less than four times the bytes of its regions, in logarithmically many chunks |
| `Arena.Memory.AddEntry` | src/allocator.c:162-192 | a new entry with one chunk of its own, everything else untouched; a second entry of a thread changes nothing that is ever found |
| `Arena.Memory.SetCurrent` | src/allocator.c:194-197 | later calls serve from the allocator given |
| `Arena.Memory.SetCustom` | src/allocator.c:132-139 | one mode of one allocator is redirected, all others keep theirs |
| `Arena.Memory.ActivateMode` | src/allocator.c:199-214 | the mode changes if and only if the thread has an entry in another mode |
| `Arena.Memory.Choose` | src/allocator.c:216-230 | the entry of the thread in the allocator its mode selects |
| `Arena.Memory.Cut` | src/allocator.c:232-260 | the region is cut from the last chunk of that entry where the bytes fit, else from one new chunk of twice the larger size; it is zeroed, only its bytes change, and mode and other chunks stay |
| `Arena.Memory.New` | src/allocator.c:216-261 | a region of the selected entry, zeroed, apart from every live region, none of whose bytes change; the entry serves it from its last chunk or grows by one chunk as in `Cut`, all other entries stay, and without an entry nothing changes |
| `Rotater.List` | src/zlog/src/rotater.c:181-230 | the archives in ascending order, in whatever order they are found |
| `Rotater.Rotater.RollFiles` | src/zlog/src/rotater.c:285-345 | does to the disk what the roll says |
| `Rotater.RollOnce` | src/zlog/src/rotater.c:285-345 | one roll of contiguous archives renames onto no existing file and leaves the newest contiguous |
| `Rotater.RollingKeepsRecent` | src/zlog/src/rotater.c:285-345 | after every run archive j is the j-th most recent base file, at most max_count of them |
| `Rotater.RollAgain` | src/zlog/src/rotater.c:427-466 | after any rotations, writing a file and rotating succeeds and leaves the most recent files as the archives |
| `Rotater.Rotater.SequenceFiles` | src/zlog/src/rotater.c:232-282 | does to the disk what the sequence rotation says |
| `Rotater.SequenceOnce` | src/zlog/src/rotater.c:232-282 | the new index is free and one above all before |
| `Rotater.SequenceKeepsRecent` | src/zlog/src/rotater.c:232-282 | after every run each archive carries the number of its rotation and the newest max_count + 1 remain |
| `Rotater.SequenceAgain` | src/zlog/src/rotater.c:427-466 | the same for sequences, with numbered archives |
| `XmlDict.LookupKeeps` | src/xmldict.c:83-97 | a new entry at the end changes no walk along older links, all of which go down |
| `XmlDict.Dict.Find` | src/xmldict.c:83-97 | the walk ends and gives the value of the map, or none |
| `XmlDict.Dict.Add` | src/xmldict.c:99-124 | inserts if and only if absent, across growth |
| `XmlDict.Dict.Replace` | src/xmldict.c:126-143 | overrides by shadowing, across growth |

## Left out

- The inline fallback of `template_task_run_and_wait` (no pool, or no thread may wait): the latch is then NULL and the claims about it do not apply.
- The latch as a 32-bit number: it counts without bound here.
- The threads' steps as imperative code: `template_task_function`, the wait loop of the latch and the interpreter loops are a state machine over values, because their point is the interleaving; one append under no lock is one step.
- `xsl:attribute` and the copying of attribute nodes: they write to elements outside the result of their own context.
- `xsl:sort` inside the fork/join model: the order of a selection is part of the oracle there, and proved separately.
- Transform.ResultIsMeaning: does not cover `xsl:apply-templates` with a sort and without `select`, because src/instructions.c:83 and 124 then sort the child list of the source document in place, relinking it (src/xpath.c:560-568) under the other threads; selections that share the nodes of the document in other ways are likewise outside the oracle.
- A variable read inside its own body sees an empty fragment in the engine; detached fragments are values here.
- The shared counter for raw output while two threads serialise detached bodies at once.
- XmlArena.DoParse: a tag that closes the document itself ends the model with its own outcome, because src/parse.c:201-204 then goes on with no parent node.
- XmlArena.Parser.CloseState: the same.
- NUL characters: the round trip admits them in texts and values, C strings cannot hold them.
- Documents beyond the serialiser's range in the round trip as a whole: declarations, DOCTYPE, comments, CDATA, unescaped text, malformed tags; `XmlMarkup` says of each what is read, and the scanner itself is modelled on every text, with runs past the terminator as an outcome.
- Line numbers and file names of parsed nodes; an attribute without a value counts as empty.
- Output of the DOCTYPE and of the XML declaration.
- Strings of 2^32 bytes and more.
- Md5Stream.Md5.Process: where the sum in front of the first copy wraps (`TopUpTest`) the code copies past its buffer and has no defined result; the model stops there and reports it. Chunks are shorter than 2^32 because their length is a 32-bit word.
- Big-endian byte swapping and the text form of signatures.
- XPathCompiler.Cursor.DoSelect: the syntax read back has no explicit axes and no double slash.
- XPathCompiler.Cursor.DoNode2: the syntax read back has no numbers with a fraction.
- XPathCompiler.Compile: malformed text, explicit axes, the double slash, fractions and text without spaces around operators are outside; rooted steps are names, and calls do not occur inside later steps, because the engine itself drops the root or the call there.
- Nodes of compiled expressions are immutable values; their linking and the cache of compiled expressions are not modelled.
- Sort keys are functions of a node (not of its position), numbers are real, not-a-number does not occur, the lock around the tables is not modelled.
- Trimming and splitting of match patterns, the dictionary of modes, the fallback to the root and catch-all templates in `find_template`, named templates, attribute nodes, filters other than as an oracle.
- Templates.Entry.TrieIsBest: stated for the direct chains that the key decides (`KeyDecidesIffPure`), because for others the trie takes nodes that `select_match` does not.
- Templates.Entry.FindSelect: what it says of the heaviest template is stated for these direct chains, too; filters of listed ones are an oracle.
- TemplatePatterns.KeyDecidesIffPure: chains in which the context or the root stands before the last step are outside, because the compiler puts it last.
- Trie nodes are indexes into a growing sequence.
- Counting of blocked waiters in the pool, failure to create a thread, and the release of the queue.
- HashTable.Table.constructor: requires at least one chain, because with none the first hash is taken modulo zero.
- Callbacks that delete keys and values, keys compared by a function other than equality; the load factor 1.3 is an exact fraction.
- `zlog_buf_vprintf`, failed reallocation (return -1) and negative widths.
- Alignment and exhausted memory in the arena; the memory of a second entry of a thread, which is never used; each call is one step.
- Arena.Run: stops at an allocation in a mode whose custom allocator has not been set, and says so.
- Arena.Memory.New: requires the custom allocator of a mode to be set before the mode is used, because the slot is otherwise uninitialised.
- File name patterns, index widths, the lock file, and failures of rename or unlink other than a missing file.
- Cached hashes of dictionary names, missing dictionaries or names, 32-bit counters.
- Floating point, the concurrent dictionary, configuration parsing, time formatting, caches and callbacks into Perl.
- Failure of allocation and of the thread library anywhere.
