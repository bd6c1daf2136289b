# Verification of astli

A Dafny model of the algorithmic core of astli, a front end, formatter and linter for
SystemVerilog, with proofs of what that code promises. `dafny verify dfyconfig.toml` checks
all of it.

The model follows the code's own form. Where the program updates an object in place (the
event buffer, the tree builder, the expression parser, the printer) it is a class whose
methods are proved against functions of the state; where it loops over vectors it is a
method with loop invariants; where it is an expression it is a function. The properties are
proved about those functions, and the methods' postconditions carry them over.

## What is modelled

**The parser's events and tree** (`Syntax`, `Unwinding`, `Events`, `EventRuns`,
`EventBuffer`, `Build`, `BuildTheorems`, `TreeBuilder`). Grammar rules append flat events;
`precede` wraps a finished node by a forward pointer, `rollback` truncates and clears
pointers, `resolve` unwinds them in one pass. The specification is a stack of forests: a
marker opens a frame, completing it makes its frame a node, abandoning it splices the frame
into the one below, preceding a child moves it and all after it into a frame of its own.
`EventRuns` proves, over every run of calls and rollbacks, that the buffer always denotes
that stack (`Sound`), that resolving with no marker open writes the preorder of the forest,
and that rolling back restores the whole state of the snapshot. The protocol is stated by
`Events.Enabled` and `EventRuns.IsRun`: markers are completed innermost first, `precede` is
called on a child of the innermost open node that is not wrapped yet, and the markers open
at a snapshot are still open at its rollback. The code asserts only that their number is
the same. A marker that precedes a node and is abandoned leaves a buffer that nothing but a
rollback makes sense of (`torn`); the expression parser is proved never to leave one.

`Build` feeds events to the builder that puts trivia back between tokens and keeps what
would be nested too deep flat. For any limit the tree is exactly the event tree with each
node that would sit at the limit flattened, its leaves are all the tokens in order, and it
is no deeper than the limit. `Attachment` says where trivia goes: no node but the root
starts or ends between a token and a comment on its line, and each does right after the
last such comment. `Flattening` says where the nesting that was too deep is reported.

**Precedence climbing** (`Expr`, `ExprTheorems`, `ExprGrouping`, `ExprEvents`,
`ExprParser`). The binding powers of section 11.3.2 (Table 11-2) of IEEE 1800-2023, the
right associative `->`, `<->` and `?:`, `matches` and `&&&` between levels, prefix
operators, parentheses, `min:typ:max` and incomplete input. A complete tree is returned
exactly when it is legal by the binding powers, prints to the tokens consumed and takes in
nothing of what follows. `ExprGrouping` says the same of the table itself, a list of rows
from the tightest to the loosest: which of two operators takes the operand between them.
`ExprParser` is the parser itself over the event buffer of the first part, with its
snapshots and rollbacks: what it resolves to is the tree the functions say.

**The printer** (`Layout`, `LayoutItems`, `LayoutIndent`, `LayoutChoices`, `LayoutLays`,
`LayoutUnder`, `LayoutWidth`, `LayoutSpacing`, `LayoutColumns`, `LayoutMarks`,
`LayoutPrinter`, `Print`). The stack machine with pending separation, the measure that
decides what stays on a line, and the trial printing that decides between two layouts.
`LayoutItems` is what a document promises, as a function of the document alone: its words
and line breaks, which groups stay on a line, and from where each broken line is indented,
so many levels in from the left edge or from where an `Align` starts. `LayoutLays` proves
that the printer computes it: every word is at the line and column the document says, every
cell and every line placed under earlier text is noted as it says, and groups, fills and
choices are decided as it says, trial printing and all. A group laid flat because it fits,
and all texts after it up to the next line break, end within the width. Printing adds only
whitespace, whatever the width. `LayoutMarks` says what alignment relies on: cells are in
the order of the text, each line is placed at most once and only by text on a line that is
not placed itself.

**Alignment** (`Columns`, `ColumnRuns`, `Padding`, `Alignment`, `Tables`, `LineSpaces`,
`AlignedText`, `AlignedWidth`, `AlignedFit`, `CarriedComment`). Which cells of a table line
up, how rows that would leave the width split it, the runs of comments at the ends of lines,
and the insertion of the spaces. `LineSpaces` finds, among the spaces of all tables, those
on one line: those of the row on it and those that carry it along with the text it is placed
by. From that `AlignedText` and `AlignedWidth` say, of the text that comes out, where the
cells and the comments of a run are, what is within the width and how far placed lines move,
and `AlignedFit` that rows take all the padding that leaves their code within the width and
every comment with room for it is in a run. All of this holds of what `Tables.Align`
returns, for cells and continuations as `LineSpaces.Noted` says, and
`Print.PrintedIsAligned` shows that the printer notes them so: the results are about printed
text.

**Packages** (`Graph`, `PackageOrder`, `Features`, `Overrides`). The order of packages by
their longest chain from the root, with the packages on a cycle as the error; the mutual
least fixpoint of packages in the design and features enabled; the files an override
replaces.

**Files** (`FileIndex`, `FileOrder`, `FileVisits`, `Chains`). What each name means, the
files a design needs and in which order, and the shortest chain that explains a file.

**Two smaller results.** `Defines` and `DefineTexts`: moving the backslashes that continue
a `` `define `` is invisible to the check that the formatter changed nothing, nothing else
is, and it lines them up. `Widths`: the bits the lint computes for an expression hold its
exact value, and it reports an expression as truncated exactly when a source in it needs
more bits than it is taken to.

## Where the code and its comments disagree

- `crates/astli-index/src/index.rs:190-191` says files that depend on each other keep the
  order given. They do not: of `[a, b]` that do, `b` is written first
  (`FileOrder.PairSwapped`), and in general the first file given is written after all it
  needs (`FileOrder.FirstGivenLast`). Every order given is kept exactly when no two of the
  files depend on each other (`FileOrder.KeepsEveryOrder`). Of two that do in one given
  list, the one given first stays first exactly when a file given before it needs it and
  writing what those files need writes it first (`FileOrder.PairKept`, `FileOrder.ListKept`).
  What holds on every graph is `FileOrder.DependenciesFirst`.
- `crates/astli-index/src/index.rs:34-35` says redeclared names are in the order first
  declared. They are in the order of each name's second declaration with a body
  (`FileIndex.SecondDeclaredFirst`); the two orders agree exactly when no name is first
  declared before, and again after, both of another (`FileIndex.FirstDeclaredOrder`).

- `crates/astli-fmt/src/align.rs:187-192` and 247-249 line up the comments of a run at one
  column with all their lines within the width, and 55-57 pads a row only while none of its
  lines goes past it. Neither counts what carries the row's own line: lines 171-177 insert
  that at its start, while 243-258 and 317-334 measure the line where it was. Text under
  text with a comment after it, at a width of 5, comes out a column right of its run and
  past the width (`CarriedComment.CarriedPastTheWidth`). What holds: a comment starts at its
  run's column and what carries its line, so at the column exactly when nothing does
  (`AlignedText.CommentOfRun`, `AlignedText.AtRunsColumn`), and the line is within the width
  exactly when what carries it leaves it there (`AlignedWidth.LineWithinExactly`). Nothing
  carries a line that no continuation places (`AlignedText.NothingCarries`).

- `crates/astli-fmt/src/doc.rs:47-49` says lines broken in an `Align` start at the column its
  first text does. They start where a word before its content would; the first text starts
  there too exactly if no blank that is written comes before it
  (`LayoutUnder.UnderFirstExactly`). After `x`, of ` a` and a line under it, the `a` is at
  column 2 and the line at 1 (`LayoutUnder.BlankBeforeFirst`).
- `crates/astli-parse/src/expr.rs:3` and 16-17 name Table 11-2 of IEEE 1800-2023, by which
  `**` groups to the left, as all operators but `?:`, `->` and `<->` do. Line 40 makes it
  group to the right, and so does the model: of `a ** b ** c` the second operator takes the
  `b` (`ExprGrouping.Groups`, row 0).

## Model

| member | source | states |
|---|---|---|
| `EventRuns.ResolveTheorem` | crates/astli-parse/src/event.rs:161-204 | After any run of calls and rollbacks, with no marker open, unwinding the forward parents writes the preorder of the forest the calls denote: balanced, no tombstone or pointer left, wrapped nodes nested outward. |
| `EventRuns.RollBackTheorem` | crates/astli-parse/src/event.rs:129-144 | A rollback restores the whole state of its snapshot, forward parents, records of them and diagnostics included, whatever came between and however often it was gone back to. |
| `EventRuns.RunKeeps` | crates/astli-parse/src/event.rs:57-204 | At every point of every run the buffer denotes the stack of forests, and each state still live is still there underneath. |
| `EventRuns.CompletedCanBePreceded` | crates/astli-parse/src/event.rs:206-265 | A node just completed can be wrapped: the protocol lets `precede` follow `complete`. |
| `Unwinding.UnwindWrapped` | crates/astli-parse/src/event.rs:255-265 | Recording a forward parent changes what `resolve` writes only by opening one node right before the one wrapped. |
| `Unwinding.UnwindGivenUp` | crates/astli-parse/src/event.rs:238-244 | Giving up a node nothing points to removes its opening from what is written, and nothing else. |
| `Unwinding.UnwindPositions` | crates/astli-parse/src/event.rs:161-204 | Each position is written at most once, and only where an opening event stands. |
| `EventBuffer.Events.Complete` | crates/astli-parse/src/event.rs:226-235 | Completing the innermost marker makes its frame a node of the frame below, and the node can be preceded. |
| `EventBuffer.Events.Abandon` | crates/astli-parse/src/event.rs:238-244 | Abandoning the innermost marker splices its children into the frame below. |
| `EventBuffer.Events.Precede` | crates/astli-parse/src/event.rs:255-265 | Preceding a child moves it and all after it into a new frame; the buffer records the pointer. |
| `EventBuffer.Events.Rollback` | crates/astli-parse/src/event.rs:129-144 | The loop that takes back pointers and truncates gives exactly the earlier state. |
| `EventBuffer.Events.Resolve` | crates/astli-parse/src/event.rs:161-204 | The one pass that follows and clears pointers in place returns the preorder of the forest. |
| `BuildTheorems.BuildTheorem` | crates/astli-parse/src/build.rs:88-147 | Feeding the preorder of a tree to the builder fails on no event, leaves all tokens before the end of the file in order, makes the tree with what would sit at the limit flat, is no deeper than the limit, and reports flattening exactly when there was some. |
| `BuildTheorems.CappedHeight` | crates/astli-parse/src/build.rs:88-147 | Flattening bounds the depth by the limit and leaves shallower trees as they are. |
| `BuildTheorems.ShallowIsKept` | crates/astli-parse/src/build.rs:88-147 | A tree under the limit is built just as its events say. |
| `TreeBuilder.Builder.Trailing` | crates/astli-parse/src/build.rs:208-233 | The scan keeps exactly the trivia up to the last comment on the line of the token before it, of those no other comment that runs over lines is between. |
| `TreeBuilder.Builder.Handle` | crates/astli-parse/src/build.rs:98-138 | One event changes the builder's position, depth, flattening and open nodes as the specification of the pass says. |
| `TreeBuilder.Build` | crates/astli-parse/src/build.rs:88-147 | The pass over the events builds the tree `BuildTheorem` describes, with trivia where `Attachment.BuildAttaches` says and flattening reported where `Flattening.BuildReports` says. |
| `Flattening.BuildReports` | crates/astli-parse/src/build.rs:107-118 | Flattening is reported once, at the first token that is not trivia of the first node that would sit at the limit, and not at all if none would. |
| `Build.TrailingExactly` | crates/astli-parse/src/build.rs:208-233 | The trivia kept after a token is all there is up to the last comment on its line. |
| `Attachment.BuildAttaches` | crates/astli-parse/src/build.rs:88-147 | In the tree built every node but the root starts and ends after every comment that trails the last token before, and right after the last of them unless an earlier one runs over lines. |
| `Attachment.HoldsComments` | crates/astli-parse/src/build.rs:10-15 | A node that holds a token holds every comment on its line that trails it. |
| `ExprTheorems.ParseExactly` | crates/astli-parse/src/expr.rs:91-192 | A complete tree is returned with what is left if and only if the tokens are its print followed by that rest, it is legal by the binding powers, and nothing in it or around it would take in what follows. |
| `ExprTheorems.PrintThenParse` | crates/astli-parse/src/expr.rs:91-192 | The print of a legal tree parses to that tree with nothing left. |
| `ExprTheorems.BinarySound` | crates/astli-parse/src/expr.rs:91-192 | Whatever is returned, complete or not, prints to exactly the tokens consumed; if complete it is legal, and what is left does not continue it. |
| `ExprTheorems.Unambiguous` | crates/astli-parse/src/expr.rs:18-47 | No two legal trees print alike. |
| `ExprTheorems.ParsesOperands` | crates/astli-parse/src/expr.rs:169-192 | An expression is found exactly where prefix operators lead to an operand or a parenthesis. |
| `ExprTheorems.AntecedentStopsAtArrow` | crates/astli-parse/src/expr.rs:80-83 | An expression parsed above the loosest level holds no `->` outside brackets, so a caller finds its own. |
| `ExprGrouping.InSomeRow` | crates/astli-parse/src/expr.rs:18-47 | An operator continues an expression exactly if it is in a row of the table. |
| `ExprGrouping.Groups` | crates/astli-parse/src/expr.rs:18-47 | Of two operators around an operand, whatever their rows: the one in the tighter row takes it, and of two in one row the first, or the second if the row groups to the right. |
| `ExprGrouping.ChoiceAfter` | crates/astli-parse/src/expr.rs:91-166 | After an operation `?:` chooses by all of it, unless its operator is in a looser row. |
| `ExprGrouping.ChoiceBefore` | crates/astli-parse/src/expr.rs:91-166 | After the last branch of `?:` an operator is part of that branch, unless it is in a looser row. |
| `ExprGrouping.ChoiceAround` | crates/astli-parse/src/expr.rs:157-166 | Any operation is whole between `?` and `:`, and a choice after the last branch is part of it. |
| `ExprGrouping.PrefixFirst` | crates/astli-parse/src/expr.rs:169-192 | A prefix operator takes its operand alone, before any other operator. |
| `ExprGrouping.PostfixFirst` | crates/astli-parse/src/expr.rs:169-192 | A postfix operator is of the operand it stands after alone, before prefix operators. |
| `ExprParser.Parser.Binary` | crates/astli-parse/src/expr.rs:91-154 | The loop over the event buffer adds the tree of the expression to the innermost node, or, with no operand, leaves buffer and position as they were. |
| `ExprParser.Parser.Infix` | crates/astli-parse/src/expr.rs:112-149 | An operator that misses its right operand is taken back, wrapping node and all. |
| `ExprParser.Parser.Ternary` | crates/astli-parse/src/expr.rs:157-166 | The node begun around the condition is completed over the branches, missing parts and all. |
| `ExprParser.Parser.Parenthesized` | crates/astli-parse/src/expr.rs:459-480 | Parentheses hold what the specification says, `min:typ:max` included, closed or not. |
| `ExprParser.Parse` | crates/astli-parse/src/expr.rs:74-76 | Parsing into a fresh buffer and resolving it gives the preorder of the expression's tree and the tokens it did not take in; the kinds of the tokens in those events, then of what is left, are those of all tokens, in order. |
| `ExprEvents.KindsApart` | crates/astli-parse/src/event.rs:102-104 | Events that record tokens of one kind record the same operator or punctuation, or names. |
| `ExprEvents.HoldsPrint` | crates/astli-parse/src/expr.rs:91-192 | The tree of an expression holds the tokens it prints as, each once, in order, under their kinds. |
| `LayoutWidth.FlatGroupFits` | crates/astli-fmt/src/doc.rs:474-551 | When a group is laid flat because it fits, every text printed from it to the next line break ends within the width. |
| `LayoutWidth.MeasuredLineFits` | crates/astli-fmt/src/doc.rs:303-381 | Whatever stack the measure accepts, the run prints no text past the width before its next line break. |
| `LayoutWidth.StepKeeps` | crates/astli-fmt/src/doc.rs:303-381 | Each turn of the printer leaves a stack the measure still accepts, with what is left of the line. |
| `LayoutWidth.FillKeeps` | crates/astli-fmt/src/doc.rs:386-420 | What a fill queues, part by part, is accepted if the fill broken was. |
| `LayoutWidth.MoreRoom` | crates/astli-fmt/src/doc.rs:486-551 | The measure is monotone in the room there is. |
| `LayoutChoices.MeasureExactly` | crates/astli-fmt/src/doc.rs:486-551 | The measure says yes exactly when the words of what is measured, up to where a line breaks, fit in the columns left and no break there is that no group is flat around. |
| `LayoutChoices.FitsExactly` | crates/astli-fmt/src/doc.rs:474-484 | So documents fit exactly when their words and what follows do, from the column the document says they start at. |
| `LayoutSpacing.RunPrints` | crates/astli-fmt/src/doc.rs:303-381 | A run prints the texts on its stack in order with only blanks between, no line ending in a space and no two empty lines in a row, and notes cells and continuations only between texts. |
| `LayoutSpacing.WriteSpaced` | crates/astli-fmt/src/doc.rs:595-642 | Writing one text after the pending separation keeps all of that. |
| `LayoutColumns.StepTracks` | crates/astli-fmt/src/doc.rs:303-381 | After every turn the printer's column and line, and those of each cell, are the ones in the text written so far, and a line placed by an earlier one starts a line. |
| `LayoutMarks.StepMarks` | crates/astli-fmt/src/doc.rs:303-381 | Every turn notes cells in the order of the text, starts a line for each continuation and none twice, and places lines only by text on lines not placed themselves. |
| `LayoutMarks.RunMarks` | crates/astli-fmt/src/doc.rs:303-381 | After every run the cells and continuations are noted so. |
| `LayoutColumns.GroupFitsInText` | crates/astli-fmt/src/doc.rs:474-551 | A group laid flat because it fits: in the output, each text up to the next line break ends within the width. |
| `LayoutPrinter.Printer.FlushGap` | crates/astli-fmt/src/doc.rs:606-642 | The separation asked for is written, never before the first text. |
| `LayoutPrinter.Printer.MeasureDocs` | crates/astli-fmt/src/doc.rs:486-551 | The loop over documents and then the commands left measures what the specification measures on one stack. |
| `LayoutPrinter.Printer.Fill` | crates/astli-fmt/src/doc.rs:386-420 | The part and separator queued, each flat or broken, are those the measure decides. |
| `LayoutPrinter.Printer.FitsPrinted` | crates/astli-fmt/src/doc.rs:447-464 | Another printer's trial run decides, with its second layouts taken untried. |
| `LayoutPrinter.Printer.Run` | crates/astli-fmt/src/doc.rs:303-381 | The loop over the command stack comes to the state the specified run comes to, which `LayoutLays.RunLays` shows to be the layout of its documents. |
| `LayoutIndent.TextLaid` | crates/astli-fmt/src/doc.rs:595-642 | A text is written at the line and column that the words, blanks and breaks before it say, and its line is placed under the text its break says. |
| `LayoutIndent.CellLaid` | crates/astli-fmt/src/doc.rs:556-575 | A cell is noted where the last word ends, unless a line break comes after that. |
| `LayoutLays.StepLays` | crates/astli-fmt/src/doc.rs:303-381 | One turn lays out what its document comes to, or leaves commands that come to the same. |
| `LayoutLays.FillLaid` | crates/astli-fmt/src/doc.rs:386-420 | What a fill queues comes to what the fill does: a part flat exactly if it fits, a separator exactly if the part after it can start on the line. |
| `LayoutLays.InnerIs` | crates/astli-fmt/src/doc.rs:425-437 | Lines broken in an `Indent` start one level further in, in a `Margin` at the left edge, and in an `Align` where the next word would, placed under it or what its line is under. |
| `LayoutLays.KeptExactly` | crates/astli-fmt/src/doc.rs:447-464 | The first of two layouts is kept exactly if, with the second taken of each choice in it, no word of it passes the width, no line of it is aligned past half, and what follows fits after it. |
| `LayoutLays.RunLays` | crates/astli-fmt/src/doc.rs:303-381 | A run prints the layout of the documents on its stack: words, cells and placed lines where that puts them. |
| `LayoutUnder.UnderFirstExactly` | crates/astli-fmt/src/doc.rs:425-437 | Lines aligned start where the first word aligned does exactly if no blank that is written comes before that word. |
| `LayoutUnder.BlankBeforeFirst` | crates/astli-fmt/src/doc.rs:47-49 | An aligned blank, `a` and a line under it, after `x`: the `a` is a column right of the line. |
| `Print.Print` | crates/astli-fmt/src/doc.rs:177-199 | For any width and indentation what is printed before alignment is the layout of the document: every text at the line and column the document says, broken lines so many levels in from the left edge or the innermost `Align`, one empty line for a `BlankLine`, cells and placed lines as the document says; and the output is that with the spaces of its tables inserted, its texts in order with only blanks between, without trailing spaces or two empty lines, ending in one line end unless empty. |
| `Print.RanIsLaidOut` | crates/astli-fmt/src/doc.rs:177-199 | What is printed before alignment is the layout of the document. |
| `Print.PrintedIsAligned` | crates/astli-fmt/src/doc.rs:177-199 | What is printed is noted as the results about aligned text ask, and the text a line is placed by is on a line that is not placed itself. |
| `Columns.Targets` | crates/astli-fmt/src/align.rs:265-310 | After the pads the cells of a run end at one column, where one already did; runs are cut exactly where the code says, pads of limited columns are at most `max_pad`, and a lone row takes none. |
| `Columns.LineUp` | crates/astli-fmt/src/align.rs:288-307 | One column's moves: level within each run, cut where a cell is too far or an earlier column's run began. |
| `Columns.NoRunCrosses` | crates/astli-fmt/src/align.rs:265-310 | No run of a later limited column goes on across a row where a run of an earlier column began. |
| `ColumnRuns.OneRun` | crates/astli-fmt/src/align.rs:265-310 | All cells of one column of a strict table end in one column, and all comments of a run start in one. |
| `ColumnRuns.ShortRuns` | crates/astli-fmt/src/align.rs:265-310 | In any other table a cell takes no more than the most padding allowed, and two cells too far apart are in different runs. |
| `ColumnRuns.CutsExactly` | crates/astli-fmt/src/align.rs:265-310 | A run ends before a cell exactly where a run of an earlier column begins since the cell before it, or where the cell is too far from one of the run. |
| `Alignment.Fitting` | crates/astli-fmt/src/align.rs:317-334 | The most cells of a row that can be padded with all its code lines within the width, or none. |
| `Alignment.CommentRuns` | crates/astli-fmt/src/align.rs:194-228 | Comments join the run above exactly when all in it then fit; the column is never left of a comment's own code, and within every comment's limit. |
| `Alignment.JoinsExactly` | crates/astli-fmt/src/align.rs:194-228 | A comment joins a run exactly if there is a column at which it and all of the run fit. |
| `Alignment.WithinRoom` | crates/astli-fmt/src/align.rs:250-258 | A comment moved no farther than its room has all its lines within the width. |
| `Alignment.Table` | crates/astli-fmt/src/align.rs:152-184 | The recursion that splits a table ends; the groups are exactly those of the rows next to each other that all can, or all cannot, take their padding; each is lined up together, and each row takes no padding or stays within the width it is measured by, its comment too. |
| `Alignment.LoneTable` | crates/astli-fmt/src/align.rs:152-184 | A table of one row, with no line placed by an earlier one, inserts nothing. |
| `AlignedFit.FittingIsMost` | crates/astli-fmt/src/align.rs:317-334 | A row takes the most cells that leave its code, and that of each line its code places, within the width, each measured to the comment that ends its line. |
| `AlignedFit.WholeExactly` | crates/astli-fmt/src/align.rs:152-170 | A row splits its table exactly if its code, with all its cells padded, is not within the width. |
| `AlignedFit.RoomExactly` | crates/astli-fmt/src/align.rs:250-258 | A comment has room to move exactly as far as leaves its line and those it places within the width. |
| `AlignedFit.TakesWhatFits` | crates/astli-fmt/src/align.rs:55-58 | In aligned text a row has at least the padding of any number of its cells that leaves its code within the width, however long its comment. |
| `AlignedFit.TakesItsComment` | crates/astli-fmt/src/align.rs:194-228 | And its comment is in a run where all cells before it are padded and its lines are within the width. |
| `Padding.Widens` | crates/astli-fmt/src/align.rs:96-106 | Inserting the pads keeps every character, in order, each as far on as the pads up to it, and adds only spaces. |
| `Padding.TextsStay` | crates/astli-fmt/src/align.rs:96-106 | Pads between texts leave every text whole and in order. |
| `Padding.StillNoDouble` | crates/astli-fmt/src/align.rs:96-106 | Pads away from line ends make no two empty lines in a row. |
| `Padding.PaddedColumn` | crates/astli-fmt/src/align.rs:96-106 | Every character stays on its line, moved along it by exactly the spaces inserted on that line up to it. |
| `LineSpaces.OwnOnLine` | crates/astli-fmt/src/align.rs:63-107 | Of the spaces all tables insert, those of cells on a line that has cells of one table are the spaces of that table's row there, up to any place on it. |
| `LineSpaces.CarriedBy` | crates/astli-fmt/src/align.rs:171-177 | A placed line starts with as many spaces as the row on the line it is placed by carries it, and with no others. |
| `AlignedText.MovesBy` | crates/astli-fmt/src/align.rs:63-107 | In the output every character has moved along its line by the spaces of cells there up to it and by what carries the line. |
| `AlignedText.CellGoesTo` | crates/astli-fmt/src/align.rs:171-184 | After its padding a cell ends, in the output, in the column it did, moved by the paddings of its row up to its own and by what carries its line. |
| `AlignedText.InGroups` | crates/astli-fmt/src/align.rs:152-184 | The rows of each table that was padded are in groups next to each other, each lined up together by the runs the next rows speak of. |
| `AlignedText.TablesExactly` | crates/astli-fmt/src/align.rs:71-86 | Two cells are lined up in one table exactly if they are of one table and no empty line is between. |
| `AlignedText.CellsOfRun` | crates/astli-fmt/src/align.rs:265-310 | The padded cells of one column in one run end, in the output, in one column, but for what carries their lines. |
| `AlignedText.CommentOfRun` | crates/astli-fmt/src/align.rs:194-228 | Each comment of a run starts, in the output, at the run's column and what carries its line. |
| `AlignedText.AtRunsColumn` | crates/astli-fmt/src/align.rs:194-228 | In the output a comment of a run starts at the run's column exactly when nothing carries its line. |
| `AlignedText.NothingCarries` | crates/astli-fmt/src/align.rs:171-177 | A line that no continuation places is not carried. |
| `AlignedWidth.LineWithinExactly` | crates/astli-fmt/src/align.rs:250-258 | The whole line of a row is within the width of the output exactly when its width, its padding and what carries it come to no more. |
| `AlignedWidth.CodeStaysWithin` | crates/astli-fmt/src/align.rs:317-334 | Where a row's code is padded, each character of it on the row's line is within the width of the output but for what carries the line. |
| `AlignedWidth.CommentStaysWithin` | crates/astli-fmt/src/align.rs:250-258 | Where a row's comment is padded, each character of the whole line is within the width of the output but for what carries the line. |
| `AlignedWidth.LaterStaysWithin` | crates/astli-fmt/src/align.rs:317-334 | Where a row's code is padded, each line the code places is within the width of the output, up to its first cell and its comment. |
| `AlignedWidth.CommentsLaterWithin` | crates/astli-fmt/src/align.rs:250-258 | Where a row's comment is padded, each line the comment places is within the width of the output, up to its first cell. |
| `AlignedWidth.MovesAlong` | crates/astli-fmt/src/align.rs:12-14 | A later line without a limit has moved, in the output, exactly as far as the text it is placed by, but for what carries the line of that text. |
| `AlignedWidth.MovesTogether` | crates/astli-fmt/src/align.rs:12-14 | Where nothing places the line of that text, as the printer leaves it, the two have moved exactly the same. |
| `AlignedWidth.CarriedAsFar` | crates/astli-fmt/src/align.rs:338-343 | A later line is carried by the spaces of its row at or before the text it is placed by, up to its limit. |
| `CarriedComment.CarriedPastTheWidth` | crates/astli-fmt/src/align.rs:194-258 | A text aligned within a width of 5: a comment whose run is at column 3 comes out at 4, on a line 6 wide. |
| `CarriedComment.Carried` | crates/astli-fmt/src/align.rs:63-107 | Aligning that text does return that output, whose second line is past the width. |
| `Tables.SortKeeps` | crates/astli-fmt/src/align.rs:71-82 | Sorting the cells by table keeps each table's cells in the order printed. |
| `Tables.SortUpto` | crates/astli-fmt/src/align.rs:96-96 | Sorting the pads by offset moves no text elsewhere. |
| `Tables.Align` | crates/astli-fmt/src/align.rs:63-107 | The output is the input with spaces inserted, those of its tables and no other. |
| `Tables.NoneBeforeLineEnds` | crates/astli-fmt/src/align.rs:63-107 | No space is inserted before a line end. |
| `PackageOrder.Ordered` | crates/astli-package/src/dependencies.rs:127-174 | An order exactly when every package is reached from the root and requirements are acyclic: every package once, by the length of the longest chain from the root, then name; otherwise the packages on a cycle and no other, by name. |
| `PackageOrder.AllSettled` | crates/astli-package/src/dependencies.rs:127-146 | Once all are settled, each depth is the length of the longest chain from the root. |
| `PackageOrder.NotSettled` | crates/astli-package/src/dependencies.rs:148-170 | If some are not, a package is not reached or lies on a cycle. |
| `PackageOrder.StillWaits` | crates/astli-package/src/dependencies.rs:137-146 | A requirement followed was still counted: `waiting` never underflows, cyclic requirements or not. |
| `PackageOrder.RequiredFirst` | crates/astli-package/src/dependencies.rs:127-174 | A package comes after every package it requires. |
| `PackageOrder.LessExactly` | crates/astli-package/src/dependencies.rs:171-173 | Of packages as deep, the one whose name is less where the two names first differ, or a prefix of the other, is the earlier. |
| `PackageOrder.Needs` | crates/astli-package/src/dependencies.rs:100-118 | What a package needs, directly or not, in the order located. |
| `Features.Select` | crates/astli-package/src/features.rs:88-224 | The loop ends; its result is the least packages and features closed under the rules of requirement, default, selection and feature enabling feature, with nothing wrong in it; an error is a feature named with a slash or one every closed design has. |
| `Features.SomeClosed` | crates/astli-package/src/features.rs:88-224 | Every design has a closed one around it, so an error every closed design has is one of a design there is. |
| `Features.RoundDone` | crates/astli-package/src/features.rs:111-191 | A round only adds packages and features, so that the rounds end. |
| `Features.Fixed` | crates/astli-package/src/features.rs:182-190 | A round that adds nothing has reached the least closed design. |
| `Features.RoundWithin` | crates/astli-package/src/features.rs:111-191 | A round started within a closed design stays within it. |
| `Features.Required` | crates/astli-package/src/features.rs:54-73 | The requirements active while some features are enabled, optional ones included, or the first that names no package. |
| `Features.Reach` | crates/astli-package/src/features.rs:124-134 | The worklist finds the least packages closed under requirement. |
| `Features.Enable` | crates/astli-package/src/features.rs:162-180 | The worklist finds the least features closed under what is asked and enabled, or an error any such features have. |
| `Overrides.Replaced` | crates/astli-package/src/overrides.rs:31-104 | Succeeds exactly when every override is of another package, no name is replaced by two packages and no file is split; then a file is dropped exactly when it declares a name replaced in its package, and otherwise the error is one that holds. |
| `Overrides.StillDeclared` | crates/astli-package/src/overrides.rs:31-104 | Where grants form no cycle between packages, every name a dropped file declares is declared by a kept one. |
| `Overrides.KeptDeclareNone` | crates/astli-package/src/overrides.rs:84-103 | No kept file declares a name replaced in its own package. |
| `Graph.Closure` | crates/astli-index/src/index.rs:173-188 | The worklist marks exactly what the starts reach. |
| `FileIndex.New` | crates/astli-index/src/index.rs:77-142 | Each name means its last declaration with a body, or its last; each file's dependencies and the files that bind into it are listed once, by their first reference; every declaration of a name declared more than once is grouped. |
| `FileIndex.LeadsOn` | crates/astli-index/src/index.rs:147-151 | A file leads to another exactly when it uses what that one declares or that one binds into it. |
| `FileIndex.FirstDeclaredOrder` | crates/astli-index/src/index.rs:34-36 | Redeclared names are in the order first declared exactly when no name is first declared before and again after both of another. |
| `FileIndex.SecondDeclaredFirst` | crates/astli-index/src/index.rs:77-104 | A file that declares `a`, `b`, `b` and `a` shows that they need not be. |
| `FileIndex.Resolve` | crates/astli-index/src/index.rs:342-350 | The files that declare the tops, or the first top none does. |
| `FileIndex.Reachable` | crates/astli-index/src/index.rs:173-188 | Exactly the files a top's file or an encrypted one leads to, in the order indexed, or the first unknown top. |
| `FileIndex.Why` | crates/astli-index/src/index.rs:247-291 | A chain exactly when a top's file leads to the file: it starts at a top's file, each step is by a real reference or `bind`, and no chain is shorter. |
| `Chains.Shortest` | crates/astli-index/src/index.rs:247-290 | The search by distance finds a chain of links exactly when there is one, and no walk is shorter. |
| `FileIndex.Ordered` | crates/astli-index/src/index.rs:192-218 | The depth first walk with its flags and output comes to the order the next rows are about. |
| `FileOrder.OrderKeeps` | crates/astli-index/src/index.rs:192-218 | Each given file is written exactly once, no other is, and each after what it depends on or on the path to it. |
| `FileOrder.DependenciesFirst` | crates/astli-index/src/index.rs:192-218 | A file is written after each file it depends on that does not depend on it in turn, on cyclic graphs too. |
| `FileOrder.OrderUnchanged` | crates/astli-index/src/index.rs:192-218 | Files already in the order of their dependencies are left as they are. |
| `FileOrder.KeepsEveryOrder` | crates/astli-index/src/index.rs:190-191 | Files keep the order given, whatever it is, exactly when no two depend on each other. |
| `FileOrder.PairKept` | crates/astli-index/src/index.rs:190-218 | Of two files of one list that depend on each other, the one given first is written first exactly when a file given before it needs it, and what those files need is written with it first. |
| `FileOrder.ListKept` | crates/astli-index/src/index.rs:190-218 | A list keeps the order given exactly when each such pair of it does. |
| `FileOrder.FirstGivenLast` | crates/astli-index/src/index.rs:192-218 | The first file given is written after every other it needs. |
| `FileOrder.PairSwapped` | crates/astli-index/src/index.rs:190-218 | Two files that depend on each other change places. |
| `FileVisits.WritesExactly` | crates/astli-index/src/index.rs:192-218 | A visit writes exactly what its list reaches past what is seen. |
| `FileVisits.EarlierFirst` | crates/astli-index/src/index.rs:192-218 | In every visit, of the list given or of what a file refers to, what the first files reach is written before what only later ones do. |
| `FileVisits.NeededFirst` | crates/astli-index/src/index.rs:192-201 | Of two files the one needed by an earlier file of the list comes first, which is the order given where neither needs the other. |
| `FileVisits.ReferencesThenFile` | crates/astli-index/src/index.rs:203-218 | A file comes right after what visiting its references, in their order, writes. |
| `Defines.Movable` | crates/astli-fmt/src/verbatim.rs:156-194 | The pass picks, in order, exactly the backslashes of definitions all of whose backslashes stand outside quotes and after neither a line comment nor a paste. |
| `Defines.Define` | crates/astli-fmt/src/transparency.rs:107-124 | The text a definition is compared by: all of it but the space before each backslash outside quotes and not after a paste. |
| `Defines.RespacedCompares` | crates/astli-fmt/src/transparency.rs:107-124 | Respacing every backslash `movable` picks, to any widths, leaves that text as it was. |
| `DefineTexts.ComparesExactly` | crates/astli-fmt/src/transparency.rs:107-124 | Definitions of the same tokens compare equal exactly when they agree in all whitespace but that before backslashes outside quotes and not after a paste. |
| `DefineTexts.CanMoveExactly` | crates/astli-fmt/src/verbatim.rs:156-194 | A backslash can be moved exactly if the quotes before it are closed and it stands right after neither a comment to the end of a line nor a paste. |
| `Defines.Backslashes` | crates/astli-fmt/src/doc.rs:720-741 | Each run of continued lines has its backslashes in one column, right after a space past its longest line, and no other line has one. |
| `Widths.ValueFits` | crates/astli-lint/src/widths.rs:192-249 | The exact value of an expression whose leaves fit their bits is below two to the bits `operation` computes, saturation included. |
| `Widths.LeastWithinRoom` | crates/astli-lint/src/widths.rs:192-249 | What an expression needs is never more than it has room for. |
| `Widths.ExtendedPastValue` | crates/astli-lint/src/widths.rs:611-616 | Where an expression is reported as extended, its exact value is below two to the bits it has room for, fewer than the target's. |
| `Widths.UnreportedFits` | crates/astli-lint/src/widths.rs:611-616 | Where nothing is reported and the target has the bits the expression may grow to, its exact value fits the target. |
| `Widths.LeastIsMost` | crates/astli-lint/src/widths.rs:192-249 | What an expression needs is the most that a source taken at its width needs, no operation on the way being wider than it is by itself. |
| `Widths.TruncatedExactly` | crates/astli-lint/src/widths.rs:611-616 | An expression is reported as truncated exactly when one of its sources needs more bits than it is taken to, and from the most one needs. |
| `Widths.RoomIsReached` | crates/astli-lint/src/widths.rs:192-249 | Sums, products and bitwise operations of operands of two bits or more have values that need every bit they have room for. |
| `Widths.RoomPassedOn` | crates/astli-lint/src/widths.rs:192-249 | What needs every bit it adds to an operation needs every bit a plus before it, or a choice it is the widest of, has room for. |
| `Widths.DifferenceFits` | crates/astli-lint/src/widths.rs:192-249 | The difference of two operands fits, with its sign, the bits a subtraction has room for. |
| `Widths.DifferenceReached` | crates/astli-lint/src/widths.rs:192-249 | Operands of two bits or more have a difference that needs all of them. |
| `Widths.NeededExactly` | crates/astli-lint/src/widths.rs:619-626 | The bits a constant that is not negative needs are the fewest its value fits. |
| `Widths.LeafRanges` | crates/astli-lint/src/widths.rs:153-187 | The ranges given to operands and to constants, sized or not, are sound: they have room for the value and for what it needs. |

## Left out

- Input and output, processes, git, manifests, the lockfile, the command line and what is
  printed there: plumbing around what is modelled.
- The lexer, the preprocessor, the green tree library and semantic analysis: tokens, their
  kinds, directive ranges and the ranges of leaf expressions are inputs.
- The grammar outside expressions and the formatter's rules: many shallow cases.
- `ExprTheorems.ParseExactly`: tokens are names, literals and operators; macros, calls,
  casts, selects, braces, `tagged`, patterns after `matches`, assignments in parentheses,
  attributes, `inside` and `dist` lists and the fallback at the nesting limit are not
  modelled, and of the postfixes only `++` and `--` are.
- `EventBuffer.Events.Precede`: positions are unbounded, the 32-bit width of a forward
  parent's distance is not modelled.
- `Attachment.BuildAttaches`: where a comment that runs over lines trails a token and another
  follows it on its last line, which of the nodes that end there holds the second.
- `LayoutWidth.FlatGroupFits`: documents without `Prefer` and trailing comments, of which the
  measure sees one layout or nothing, and with fills that alternate parts and lines; `Print`
  covers all of them.
- `Print.Print`: verbatim documents are not modelled, and no text starts or ends in a space,
  as an escaped identifier's does; characters stand for bytes and for columns.
- `Columns.Targets`: that columns line up is for rows whose cells are of increasing columns,
  which lines with cells of two nested tables need not be; that only spaces are inserted,
  and where, is for all.
- `AlignedText.CellsOfRun`: columns of the output are stated for rows on lines that have
  cells of one table, for cells with something between them and the next, and for rows whose
  cells are of increasing columns; how far a character moves (`AlignedText.MovesBy`) is
  stated for all.
- `AlignedWidth.LaterStaysWithin`: of a placed line that has cells of its own, the part up to
  the first of them.
- `Tables.Align`: the sort of the cells is a stable insertion sort, and the search by
  bisection for a line's continuations takes those it would find.
- `Features.Select`: the recomputed `needs`, the removal of packages out of the design and
  the wording of errors.
- `PackageOrder.Ordered`: include directories and the wording of errors.
- `Overrides.Replaced`: the patterns of an override are the sets of files they match, and
  mutually overriding packages are promised nothing.
- `FileIndex.New`: which names are undeclared, which are tops and the query of the
  redeclared names among some files, each a filter over what is modelled.
- `Widths.ValueFits`: subtraction, negation, left shift and powers, whose exact values wrap
  or have no bound; their bits are computed as the code does, and those of one subtraction
  are `Widths.DifferenceFits`.
- `Defines.RespacedCompares`: one definition at a time, as the check compares them.
