# gotop, modelled in Dafny

gotop is a terminal system monitor. Around its device readers and its terminal library it carries a
number of algorithms of its own, and these are what this project models and proves things about: the
braille canvas and the line graphs drawn on it, the sparklines, the packer that turns a layout file into
blocks and columns, the configuration file, the rotating log, and the scrolling process table.

Code that changes things step by step is modelled by classes, arrays and loops (`Canvas`, `LineGraph`,
`SparklineGroup`, `Slice`, `Config`, `RotateWriter`, `Table`, `ProcWidget`). Each method's contract ties
the new state to a specification function or to a predicate that does not mention the method's steps; the
lemmas then prove what that specification is for, over all inputs and over whole runs of events.

| file | source | subject |
|---|---|---|
| `GoInt.dfy` | | Go's truncating division, 64-bit addition, map iteration in any order |
| `Sequences.dfy` | | suffixes; `sort.Sort` for any comparison |
| `Text.dfy` | | Go's `Atoi`, `Itoa`, `Split`, `Join`, `Fields`, `TrimSpace`, line scanning |
| `Drawille.dfy` | `termui/drawille-go/drawille.go` | digital lines; the canvas as a set of points |
| `NaturalOrder.dfy` | `termui/linegraph.go` | `numbered.Less` as an order, and where it is none |
| `Pruning.dfy`, `SeriesDots.dfy`, `Painting.dfy`, `Labels.dfy`, `LineGraph.dfy` | `termui/linegraph.go` | dots, cells, colours, labels, pruning |
| `Sparkline.dfy` | `termui/sparkline.go` | bars, rows, pruning |
| `Slices.dfy`, `Layout.dfy` | `layout/layout.go` | the packer, over slices that share an array |
| `LayoutParser.dfy` | `layout/parser.go` | the layout language |
| `Config.dfy` | `config.go` | printing and reading the settings |
| `Logging.dfy` | `logging/logging.go` | rotation over a model of the log directory |
| `Table.dfy`, `Proc.dfy` | `termui/table.go`, `widgets/proc.go` | the cursor's window; grouped, sorted processes |

`dafny verify dfyconfig.toml` checks all files together.

## What the code does not do

These are results about the code as it is. Each names the lemmas that give the exact condition or an example;
only what becomes of unknown widgets is beside the model.

- The canvas finds a cell by division that truncates toward zero, so some points left of or above the
  axes share a dot with others. `SharedDots` says exactly which, and `UnSetUndoesSet` for which points
  `UnSet` darkens another dot than the one `Set` lit.
- `Less` also answers true for a name and itself, and it is no order once numbers are padded irregularly:
  neither of `1x` and `01x` is less than the other. `OrderedIffSettled` is the exact condition for a pair,
  read off the first tokens in which the names differ; names that meet it two by two are totally ordered
  (`SettledNamesOrdered`), as names padded to one width are, the processors' among them.
- The series are listed anew only when their number changes, so a series that takes the place of another
  is not drawn (`ReplacedSeriesIsUnlisted`, `UnlistedIsNotDrawn`). gotop's own widgets only ever add series,
  and then the list stays right (`AddedSeriesAreListed`).
- Pruning depends on the width: in runs at given widths no picture ever shows it if and only if twice the
  widest width is at most one more than three times the narrowest that cuts (`PruningIsInvisible`;
  `WideningShows` is the run whose picture shows it for any greater width). A graph one cell wide never
  drops anything (`NarrowestNeverPrunes`). For sparklines the bound is three times the narrowest width that
  cuts and two cells more.
- A graph without rows prints outside its rectangle as soon as it has a sample, and a graph keeps to its
  rectangle only if it has rows or no samples (`PlottedInside`).
- In a graph of less than two rows every label opens a new column, the first one too, so all of them are two
  cells further right (`LabelGrid`).
- Label columns are never held against the width. Labels are all on rows of the graph exactly when it is
  at least two cells high (`LabelsInsideIffRoom`), but what is printed of one keeps to the graph only if it
  also ends before the right edge (`LabelInsideIffFits`).
- The packer hands a row back whole when it has placed only the first widgets of it, so these appear twice
  (`NothingLost`, `SomeWidgetsAppearTwice`). In rows of single widgets, or without spans, every widget
  appears once (`EachPlacedOnce`). The comment above its check for full columns describes
  blocks that fill up; the check can never fire, which `PackRows` proves.
- The total weight of a layout row is kept in 64 bits; `SharesAddUpIffTotalFits` says when that matters.
  The syntax comment gives 5/7 as a share in its example, where it is 4/6 (`TwoShares`); it also says that
  unknown widgets abort the program, where the code puts an empty block.
- Heights are added in 64 bits, too, and nothing keeps a layout file from asking for more. The shares of the
  screen make one if and only if the total height fits (`BlocksFillTheScreen`): three widgets of 4 * 10^18
  rows break it (`HighTextsBreakTheScreen`). A column is no higher than its block if and only if its own
  heights add up (`ColumnsFitTheBlock`): two widgets of 5 * 10^18 rows are put into a block as high as one of
  them (`HighTextsBreakTheBlock`).
- `mbps` is switched on by any line that names it, whatever was printed (`MbpsSurvivesIffOn`), so saving
  and loading restores everything else that was printed, for exactly the settings that `Clean` describes
  (`RoundTripIffClean`).
- A line that names the sensors but lists none is read as one sensor without a name (`SensorsRead`); an empty
  list is printed commented out, which keeps it from being read so.
- A custom colour scheme does not get the name of its file. One whose file gives no name, like the starter
  file that the documentation offers to copy, is printed without a name and read back as the default
  scheme (`NamelessSchemeIsLost`, `StarterSchemeIsLost`). Clean settings stay clean whatever is read if
  and only if no such scheme can be chosen (`LoadKeepsCleanIff`).
- If a rotation fails to open the new log after it has moved the old one, no later write rotates again,
  and all of them are lost (`FailedOpenLosesLog`, `NothingWrittenOnceGone`).
- After rows go away, one step up may not bring the cursor back into the window; two always do
  (`StepsUpRecover`).
- Sparklines whose group is lower than their number all go to the row above it
  (`LastShowsAboveLowGroup`).

## Model

| member | source | states |
|---|---|---|
| `Drawille.Line` | termui/drawille-go/drawille.go:192-224 | returns, for all endpoints and without dividing by zero, the digital line that the next three rows characterise |
| `Drawille.LineIsDigital` | termui/drawille-go/drawille.go:208-221 | the i-th of r+1 points is, on both axes, on the way to the other end, and r times its offset is within r of i times the whole offset |
| `Drawille.DigitalLineUnique` | termui/drawille-go/drawille.go:208-221 | no other sequence of points has that property, so it determines what is drawn |
| `Drawille.DigitalLineShape` | termui/drawille-go/drawille.go:192-224 | a digital line starts and ends at its endpoints, stays in their bounding box, moves by exactly one on every longest axis and at most one on the other at every step, and never repeats a point |
| `Drawille.SharedDots` | termui/drawille-go/drawille.go:15-28 | two points, of any sign, light the same dot of the same cell exactly when folding next to the axes makes them equal; non-negative points never share a dot |
| `Drawille.PixelMapIsUnicode` | termui/drawille-go/drawille.go:6-10 | the table of dots numbers them as Unicode does: down the left column, then the right one, the fourth row last |
| `Drawille.SetRepresents` | termui/drawille-go/drawille.go:97-105 | lighting a dot in the nested cell maps adds exactly one folded point to the set they represent and keeps all cells in one byte |
| `Drawille.ClearRepresents` | termui/drawille-go/drawille.go:114-114 | darkening one removes exactly that point |
| `Drawille.UnSetUndoesSet` | termui/drawille-go/drawille.go:108-115 | `UnSet` addresses the dot that `Set` lights exactly when y is not negative or is even |
| `Drawille.Canvas.Set` | termui/drawille-go/drawille.go:97-105 | the set of lit points gains the folded point and nothing else changes |
| `Drawille.Canvas.UnSet` | termui/drawille-go/drawille.go:108-115 | the set loses the point `UnSet` really addresses |
| `Drawille.Canvas.Toggle` | termui/drawille-go/drawille.go:118-125 | what was lit is unset, what was not is set |
| `Drawille.Canvas.Get` | termui/drawille-go/drawille.go:139-144 | where the table lookup does not panic, the answer is membership in the set of lit points |
| `Drawille.Canvas.DrawLine` | termui/drawille-go/drawille.go:227-231 | adds exactly the points of the digital line |
| `Drawille.Canvas.MaxY` | termui/drawille-go/drawille.go:42-50 | four times the greatest row in use, or zero, in whatever order the map is visited |
| `Drawille.Canvas.MinY` | termui/drawille-go/drawille.go:52-60 | four times the least row in use, or zero |
| `Drawille.Canvas.MaxX` | termui/drawille-go/drawille.go:62-72 | twice the greatest column in use over all rows, or zero |
| `Drawille.Canvas.MinX` | termui/drawille-go/drawille.go:74-84 | twice the least column in use over all rows, or zero |
| `Drawille.Canvas.Rows` | termui/drawille-go/drawille.go:157-171 | the view that the next row decodes, for any rectangle |
| `Drawille.FullViewDecodes` | termui/drawille-go/drawille.go:157-185 | decoding the runes of the full view gives back exactly the set of lit points: nothing is lost, nothing added |
| `NaturalOrder.Less` | termui/linegraph.go:175-233 | the scan over two names gives the answer whose meaning the next rows prove |
| `NaturalOrder.LessIsLexicographic` | termui/linegraph.go:175-233 | on names with numbers padded to one width, it is lexicographic order on tokens, numbers by value and before other characters, and true on equal names |
| `NaturalOrder.LessIsATotalOrder` | termui/linegraph.go:175-233 | on such names it is total, antisymmetric and transitive |
| `NaturalOrder.OrderedIffSettled` | termui/linegraph.go:188-219 | for any two different names, exactly one of the two comparisons holds if and only if their first differing tokens settle it |
| `NaturalOrder.UnpaddedNamesClash` | termui/linegraph.go:195-219 | neither of `1x` and `01x` is less than the other |
| `NaturalOrder.CpusInNumericOrder` | devices/cpu_cpu.go:15-24 | the processors' names are padded as the order needs it, for any number of processors, and sort by number |
| `NaturalOrder.CpuNameShape` | devices/cpu_cpu.go:15-24 | such a name ends in the number, with no more zeros before it than one digit, or with more than ten processors two, take |
| `NaturalOrder.SettledNamesOrdered` | termui/linegraph.go:175-233 | on any names that are settled two by two, `Less` is total, antisymmetric and transitive |
| `NaturalOrder.PaddedNamesSettled` | devices/cpu_cpu.go:15-18 | names padded to one width are settled |
| `NaturalOrder.SortedSeriesAreUnique` | termui/linegraph.go:61-70 | two sorted permutations of the same settled names are equal, so the order of the series does not depend on map iteration |
| `NaturalOrder.ProcessorsInOrder` | devices/cpu_cpu.go:15-24 | in whatever order the map yields the series of n processors, the one sorted permutation lists them from the first to the last |
| `NaturalOrder.Sort` | termui/linegraph.go:69-69 | yields a permutation, sorted by `Less` whenever the names are settled |
| `Pruning.BoundedSeries` | termui/linegraph.go:99-101 | with fewer than a width of samples between draws, a series never exceeds four widths after a draw, over any number of draws |
| `Pruning.NarrowestNeverPrunes` | termui/linegraph.go:99-101 | at width one no draw ever drops a sample |
| `Pruning.PruneKeeps` | termui/sparkline.go:101-104 | a cut at any width not below the narrowest leaves the newest samples, more than three times the narrowest width that cuts |
| `SeriesDots.SpotRange` | termui/linegraph.go:88-88 | a percentage is always plotted on one of the graph's dot rows |
| `SeriesDots.HigherIsUp` | termui/linegraph.go:88-88 | greater values are never plotted lower, and 0 and 100 reach the bottom and top dot rows |
| `SeriesDots.HeightInProportion` | termui/linegraph.go:88-88 | a percentage is plotted that share of the way up from the bottom dot row to the top one, rounded down to a dot |
| `SeriesDots.FlatHeight` | termui/linegraph.go:88-88 | without rows, values below 100 are all on one dot row, and 100 on the next lower one |
| `SeriesDots.AgesGoLeft` | termui/linegraph.go:87-87 | the newest sample is in the last column of dots, each other one as many dots left of the one after it as the scale says |
| `SeriesDots.DotsInRange` | termui/linegraph.go:86-114 | all dots of a series, clipped lines to the wall included, lie on the board the colours are kept for |
| `SeriesDots.PrintIsPolyline` | termui/linegraph.go:86-121 | what is printed is all there is to print of the line through all samples: neither the wall nor the end of the loop takes a printed dot away |
| `SeriesDots.SameRecentSameDots` | termui/linegraph.go:86-114 | series that agree on their newest samples, enough to reach the wall, draw the same dots |
| `SeriesDots.SameRecentSamePrint` | termui/linegraph.go:86-121 | one sample less is enough for the same dots in the columns that are printed |
| `SeriesDots.DroppingVisibleSamplesShows` | termui/linegraph.go:86-114 | dropping a sample that has room in the graph always changes the dots |
| `Painting.CellGlyph` | termui/drawille-go/drawille.go:157-171 | the rune printed for a cell is the union of the dots in it |
| `Painting.EmptyGlyph` | termui/linegraph.go:123-123 | a cell is skipped as the empty braille character exactly when no dot is in it |
| `Painting.BrailleTakesThreeOctets` | termui/linegraph.go:118-119 | every rune of the canvas takes three octets in UTF-8, so the division by three yields the column |
| `Painting.DrawToWall` | termui/linegraph.go:92-97 | draws and colours exactly the points of a line right of the wall, within the colour array |
| `Painting.PaintLine` | termui/linegraph.go:109-111 | every cell touched by the line gets the colour, no index out of range |
| `Painting.CopyRows` | termui/linegraph.go:117-130 | the screen gains, for each cell with a dot, its glyph in its colour at its place, and nothing else changes |
| `Labels.LabelsDisjoint` | termui/linegraph.go:134-156 | labels of any widths are below each other in one column, or two cells apart in different ones |
| `Labels.LabelsInsideIffRoom` | termui/linegraph.go:138-142 | a label is on a row of the graph if and only if the graph is at least two cells high |
| `Labels.LabelInsideIffFits` | termui/linegraph.go:138-161 | all printed characters of a label are in the graph if and only if there are none, or it is that high and the last of them ends before the right edge |
| `Labels.LabelCharsApart` | termui/linegraph.go:153-164 | two characters of labels are printed in the same cell only if they are the same character of the same label |
| `Labels.LabelGrid` | termui/linegraph.go:134-156 | the labels fill column after column, from the second row to the last, each column two cells right of the widest label of the one before |
| `Labels.PrintLabels` | termui/linegraph.go:134-166 | every character but spaces is on the screen in its series' style, and every other cell is as before |
| `LineGraph.LabelLooks` | termui/linegraph.go:143-153 | a label is the name, a space and the value, in the colour and style of its series |
| `LineGraph.PlotSeries` | termui/linegraph.go:82-114 | one series adds exactly its dots, whose places the rows on `SeriesDots` give, colours exactly their cells, and is cut exactly when it reaches the wall with more than four widths of samples; all indices are in range |
| `LineGraph.KeptIsPrune` | termui/linegraph.go:89-101 | with a positive scale the four widths alone decide about the cut |
| `LineGraph.FirstSeriesOnTop` | termui/linegraph.go:72-80 | a cell has the colour of the first listed series with a dot in it |
| `LineGraph.HighGraphPrintsInside` | termui/linegraph.go:116-130 | for any number of series, every braille cell of a graph at least one cell high is inside the inner rectangle |
| `LineGraph.FlatGraphPrintsOutside` | termui/linegraph.go:87-130 | any graph without rows prints if and only if a listed series has a sample, and then only on the row of its corner and the one above |
| `LineGraph.PlottedInside` | termui/linegraph.go:87-130 | everything printed is inside if and only if there is a row or no listed series has a sample |
| `LineGraph.LineGraph.RefreshSeries` | termui/linegraph.go:61-70 | the series are listed anew exactly when their number has changed, as a permutation of the keys, sorted if they are settled; the list is right afterwards if and only if it changed or was right before |
| `LineGraph.ReplacedSeriesIsUnlisted` | termui/linegraph.go:61-61 | a series in the place of another leaves their number, and so a list that lacks it |
| `LineGraph.UnlistedIsNotDrawn` | termui/linegraph.go:73-75 | samples of a series that is not listed make no difference to the dots |
| `LineGraph.AddedSeriesAreListed` | termui/linegraph.go:61-70 | while series are only added, a list that is right stays right or is made anew |
| `LineGraph.LineGraph.DrawLines` | termui/linegraph.go:72-131 | after all series the screen shows the union of their dots, the first series' colours on top, and each series is pruned |
| `LineGraph.LineGraph.Draw` | termui/linegraph.go:50-167 | the whole screen after a draw: that picture with the labels over it; also the pruned samples and the recorded fallback colours |
| `LineGraph.PruningIsInvisible` | termui/linegraph.go:86-131 | over all runs of samples, draws and changes of scale and size at widths from the narrowest to the widest, every picture of any series in any colours is as if nothing had ever been dropped, if and only if twice the widest width is at most one more than three times the narrowest that cuts |
| `LineGraph.WideningShows` | termui/linegraph.go:99-130 | for any greater widest width, a draw of a series one sample too long and a change to that width leave another picture on the screen |
| `LineGraph.PruningLeavesPictures` | termui/linegraph.go:72-131 | over any run within that bound, every picture has the same glyphs in the same colours |
| `LineGraph.SamePictures` | termui/linegraph.go:116-130 | series with the same dots right of the column that is not printed make the same pictures |
| `Sparkline.PeakIsPeak` | termui/sparkline.go:73-78 | the peak is the one number that bounds the samples in view and is one of them or 1 |
| `Sparkline.FindPeak` | termui/sparkline.go:72-78 | the scan finds the peak of exactly the last width of samples |
| `Sparkline.BarIndexIsQuotient` | termui/sparkline.go:85-86 | the bar is one more than seven times the sample over the peak, rounded toward zero |
| `Sparkline.BarExists` | termui/sparkline.go:87-94 | the index is valid if and only if seven times the sample exceeds minus the peak, so for all samples that are not negative |
| `Sparkline.BarsMonotone` | termui/sparkline.go:85-86 | greater samples never get lower bars |
| `Sparkline.FullAndEmptyBars` | termui/sparkline.go:81-93 | the peak gets the full bar and zero the lowest |
| `Sparkline.BarsFillTheRow` | termui/sparkline.go:80-100 | the cells drawn are those of one row of the width |
| `Sparkline.NewestAtTheRight` | termui/sparkline.go:80-94 | the newest sample has its bar at the right edge |
| `Sparkline.BarsMoveLeft` | termui/sparkline.go:82-86 | with each new sample every bar moves one cell to the left, unchanged while the peak is |
| `Sparkline.DrawSparkline` | termui/sparkline.go:71-104 | exactly the cells of the row change, each to the bar of its sample or the lowest bar; an invalid index is logged if and only if some sample in view has no bar; then the samples are pruned |
| `Sparkline.RowsApartIffHighEnough` | termui/sparkline.go:71-71 | sparklines have rows of their own, inside the group, if and only if it has a row for each |
| `Sparkline.RowAtFoot` | termui/sparkline.go:71-71 | where there is room, the group is divided into equal blocks, and each sparkline is at the foot of its own |
| `Sparkline.SparklineGroup.Draw` | termui/sparkline.go:43-106 | the screen after all sparklines are drawn one over the other, and each one's pruned samples |
| `Sparkline.BarsShow` | termui/sparkline.go:71-100 | in a group with room every bar of every sparkline is on the screen |
| `Sparkline.LastShowsAboveLowGroup` | termui/sparkline.go:71-100 | in one without, all share the row above it, where the last one shows |
| `Sparkline.PruningIsInvisible` | termui/sparkline.go:71-104 | after all runs of samples and draws not below a width, a view shows the same bars as if nothing had ever been dropped, if and only if it is at most three times and two cells as wide as the narrowest draw that cuts |
| `Sparkline.WiderViewShows` | termui/sparkline.go:101-104 | in any wider view, one draw of a series one sample too long shows |
| `Slices.Append` | layout/layout.go:127-127 | Go's `append`: in place behind the window when there is room, else in a new array |
| `Slices.AppendingWhatFollows` | layout/layout.go:146-146 | appending what follows in the array leaves the array as it was |
| `Layout.CountNumRows` | layout/layout.go:232-250 | the number of blocks when each takes as many rows as its first one is high |
| `Layout.CountMaxHeight` | layout/layout.go:253-271 | their heights added up, in 64 bits |
| `Layout.FindColumn` | layout/layout.go:134-143 | the leftmost column, from the widget's own place on, that has room for it as 64-bit addition sees it |
| `Layout.PlaceRow` | layout/layout.go:132-149 | places the widgets of a row in order until one fits nowhere; heights and contents of all columns keep agreeing with what was placed |
| `Layout.PackRows` | layout/layout.go:113-150 | the rows of a block are placed in reading order and first-fit, none of its columns stays empty, and the check for full columns never fires, for heights of any size |
| `Layout.GiveBack` | layout/layout.go:146-146 | the rows not used are given back as a window on the same, unchanged array |
| `Layout.ProcessRow` | layout/layout.go:86-159 | a block packs the front of the rows; what is returned is exactly a proper suffix of the rows, and the shared array is unchanged |
| `Layout.Layout` | layout/layout.go:36-55 | the loop ends, with blocks that together take up all rows, each as its turn packed it, and heights as fractions of the 64-bit total |
| `Layout.NothingLost` | layout/layout.go:45-50 | every widget of the layout is placed once, or twice exactly when it is in the part of a row placed by a block that handed the row back; never a whole row |
| `Layout.EachPlacedOnce` | layout/layout.go:132-149 | in layouts where a row with several widgets has no row with a span before it, every widget is placed once |
| `Layout.PacksUnique` | layout/layout.go:86-159 | what a block does to the rows it starts with, down to every column chosen, is determined by these rows |
| `Layout.PlanUnique` | layout/layout.go:45-50 | so there is one way to pack a layout, and what is said of any complete plan is said of the packer's |
| `Layout.SomeWidgetsAppearTwice` | layout/layout.go:145-148 | a layout of two rows that every complete plan, and so the packer, places a widget of twice |
| `Layout.FirstRowInPlace` | layout/layout.go:132-143 | each widget of a block's first row is in the column of its own |
| `Layout.ColumnsFitTheBlock` | layout/layout.go:132-156 | every column of a block has a widget; it is no higher than the block if and only if its heights add up in 64 bits, and always if no widget's height overflows with the block's |
| `Layout.FitsTruly` | layout/layout.go:136-136 | in blocks without such heights there is room for a widget exactly where the heights above it and its own fit |
| `Layout.LeftmostWithRoom` | layout/layout.go:132-149 | there, a widget is in the leftmost column from its own place on that has its height left, and the block stops early only in front of one that is higher than what any such column has left |
| `Layout.ColumnInOrder` | layout/layout.go:138-138 | in its column, a widget is below exactly those placed there before it |
| `Layout.ColumnShares` | layout/layout.go:138-138 | a widget has the share of the block that its height is of the block's, and those of a column make up what is filled |
| `Layout.HalvesAddUp` | layout/layout.go:136-136 | heights of up to half the largest number never overflow |
| `Layout.BlocksFillTheScreen` | layout/layout.go:42-55 | the blocks' shares of the height make one if and only if their heights add up in 64 bits |
| `Layout.TowersShareTheScreen` | layout/layout.go:42-55 | rows of equal single widgets share the screen if and only if their number times their height fits |
| `Layout.TallTowerOverflows` | layout/layout.go:136-139 | two single widgets of more than half the largest height end up in one block, one on top of the other |
| `Layout.ColumnsFillTheBlock` | layout/layout.go:109-112 | a block's columns have the weights of the widgets of its first row, all of them and in order |
| `Layout.NoEarlyStopCounts` | layout/layout.go:40-50 | if no block stops early, their number and their heights added up are what the counting functions count |
| `LayoutParser.ParseField` | layout/parser.go:79-118 | a word's name, height and weight, as the rows on the syntax below characterise them |
| `LayoutParser.ParseRow` | layout/parser.go:75-127 | the row's weights are divided by their 64-bit total |
| `LayoutParser.ParseLayout` | layout/parser.go:66-131 | the rows of the lines that are neither blank nor comments |
| `LayoutParser.FullSyntax` | layout/parser.go:14-14 | a height, a name and a weight written in full are read as written |
| `LayoutParser.SpanSyntax` | layout/parser.go:84-94 | a height and a name without a weight, which is then one |
| `LayoutParser.NameSyntax` | layout/parser.go:95-99 | a name alone, with height and weight one |
| `LayoutParser.AnySyntax` | layout/parser.go:84-108 | whatever stands for height and weight, each is read as one unless it is a number greater than that |
| `LayoutParser.RestIgnored` | layout/parser.go:80-115 | what follows a second slash, or a second colon before the first slash, is ignored |
| `LayoutParser.TwoShares` | layout/parser.go:29-38 | two widgets in a line, with weights only, share the row in proportion to these |
| `LayoutParser.SharesInProportion` | layout/parser.go:121-127 | in a row of any length whose weights add up in 64 bits, each widget has the share of its weight in their sum, and keeps its name and height |
| `LayoutParser.ParsedIsLayout` | layout/parser.go:66-131 | whatever the text, no parsed row is empty and every height is at least one, which is all the packer asks |
| `LayoutParser.SharesAddUpIffTotalFits` | layout/parser.go:115-127 | a row's weights are positive, and add up to one if and only if the numbers written add up to no more than 64 bits hold |
| `LayoutParser.BlanksDoNotMatter` | layout/parser.go:71-76 | lines with the same words are parsed the same |
| `LayoutParser.SpacedWords` | layout/parser.go:71-76 | words with any white space around and between them have the same fields |
| `LayoutParser.SkippedLineDropped` | layout/parser.go:72-74 | a blank line or comment anywhere changes nothing |
| `LayoutParser.CaseDoesNotMatter` | layout/parser.go:99-99 | the case of ASCII letters anywhere in a line changes nothing |
| `LayoutParser.RowsOfLines` | layout/parser.go:70-129 | the rows are, one by one and in order, the normalised words of the lines that are not skipped |
| `LayoutParser.ParsedLayoutFillsTheScreen` | layout/parser.go:66-131 | from text to screen: for any text, a block's columns share out its width if and only if the weights written in the line of its first row add up in 64 bits, and the blocks the height if and only if their heights do |
| `LayoutParser.HighTextsBreakTheScreen` | layout/parser.go:84-94 | texts of single widgets, of up to half the largest height, whose shares of the screen make one if and only if the heights add up |
| `LayoutParser.HighTextsBreakTheBlock` | layout/parser.go:84-94 | texts of two greater heights, which overflow their block |
| `Text.AtoiItoa` | config.go:238-238 | reading a printed 64-bit number gives it back |
| `Text.SplitJoin` | config.go:272-272 | splitting joined texts gives them back, if there are some and none holds the separator |
| `Text.LinesOfUnlines` | config.go:101-104 | scanning printed lines gives them back, but for carriage returns |
| `Config.Config.SetField` | config.go:113-199 | one key and value change exactly the setting they name, or stop with an error, as the rows on single lines below say for each key |
| `Config.Config.Load` | config.go:100-203 | reads line by line and stops at the first error or, with a panic, at the first blank line, with all settings before it taken over; the next rows say what each line does |
| `Config.LineByLine` | config.go:102-203 | a file is read from its first line on, the rest over what that line has set, unless it fails |
| `Config.BlankLinePanics` | config.go:103-104 | a blank line panics, whatever follows |
| `Config.OtherLinesFail` | config.go:108-111 | a line with no equals sign, or with more than one, is an error and sets nothing |
| `Config.ExtensionRead` | config.go:114-116 | any key that has no meaning of its own is kept, in lower case, with its value |
| `Config.CapitalsRead` | config.go:112-112 | the case of a key does not matter |
| `Config.DeprecatedRead` | config.go:117-118 | the three keys from earlier versions set nothing |
| `Config.FlagNames` | config.go:125-192 | each flag, by its key |
| `Config.FlagRead` | config.go:125-130 | a flag is set by six spellings each way, and any other value is an error |
| `Config.NumberNames` | config.go:119-180 | each number, by its key |
| `Config.NumberRead` | config.go:119-124 | a number is set if it is one that fits 64 bits, else it is an error |
| `Config.TextNames` | config.go:131-182 | each text, by its key, and the scheme that a value names, the default one if it is empty |
| `Config.ScaleRead` | config.go:155-164 | C and F set the scale, and any other value is an error that sets C |
| `Config.MbpsRead` | config.go:183-184 | any value switches `mbps` on |
| `Config.SensorsRead` | config.go:185-186 | the sensors are what is between the commas, one empty name if there is nothing |
| `Config.DurationRead` | config.go:193-198 | the refresh interval is set if the value is a duration, else it is an error |
| `Config.Config.Marshal` | config.go:236-277 | prints the file of all settings, those without a value commented out |
| `Config.FileRead` | config.go:100-203 | reading a printed file acts on its visible entries in order and on nothing else |
| `Config.PrintedIsRead` | config.go:100-277 | for printable settings over any settings, reading back fails if no scheme is read under the printed name, and else restores everything printed, with that scheme |
| `Config.RoundTrip` | config.go:100-277 | for clean settings and any settings before, reading back never fails and restores everything printed, with `mbps` on and what was not printed kept |
| `Config.NamelessSchemeIsLost` | colorschemes/registry.go:31-70 | a scheme without a name comes back as the default one |
| `Config.StarterSchemeIsLost` | colorschemes/default.json:1-24 | with one such file, from any printable settings, its scheme can be chosen, and saving loses it |
| `Config.RoundTripIffClean` | config.go:100-277 | the round trip restores exactly the clean settings: texts on one line without equals signs or trailing blanks, sensors without commas, scale C or F, a scheme that is read under its own name, blanks behind it aside |
| `Config.MbpsSurvivesIffOn` | config.go:183-184 | `mbps` comes back as it was if and only if it was on, whenever the file can be read |
| `Config.LoadKeepsPrintable` | config.go:100-203 | whatever is read, printable settings stay printable |
| `Config.LoadKeepsCleanIff` | config.go:131-136 | clean settings stay clean whatever is read, if and only if every scheme that a line can choose is found under its own name |
| `Config.SaveAndLoad` | config.go:100-277 | the round trip through the two methods, on two records |
| `Logging.RotateWriter.RotateFiles` | logging/logging.go:75-113 | the loop over the backups does to the directory what the rotation does, whichever call fails |
| `Logging.RotateWriter.WriteBytes` | logging/logging.go:61-72 | rotates first if the log is too long, then appends what the system takes, or nothing if the log is not open |
| `Logging.RotateKeepsHistory` | logging/logging.go:75-113 | whichever call of a rotation fails, only the oldest bytes are dropped |
| `Logging.StopsAtFirstFailure` | logging/logging.go:75-113 | with all files there, a rotation moves each one number up and stops at the first call that fails, with exactly the moves before it done |
| `Logging.WriteKeepsHistory` | logging/logging.go:61-72 | a write adds exactly the bytes it reports at the new end |
| `Logging.HistoryIsKept` | logging/logging.go:61-113 | after any run, with any failures, the files hold, in order and without gaps, a suffix of what was there and was written since |
| `Logging.FilesStayBounded` | logging/logging.go:61-113 | at most four files, none longer than the limit and the longest write together |
| `Logging.Retention` | logging/logging.go:23-113 | in a new directory and without failures everything is written, and the last of it is on disk: all, or three times one more than the limit |
| `Logging.WrittenIffOpenOrFull` | logging/logging.go:65-71 | without failures a write is taken whole if and only if the log is open, or is there and over the limit; else nothing changes |
| `Logging.FailedOpenLosesLog` | logging/logging.go:98-110 | a rotation of which only the last open fails leaves no log, and none open |
| `Logging.NothingWrittenOnceGone` | logging/logging.go:61-72 | from there no run of writes writes anything or changes any file, whatever works |
| `Table.Table.CalcPos` | termui/table.go:156-172 | the cursor and window after the four clamps in their order; what they are for is in the next rows |
| `Table.ClampIntoWindow` | termui/table.go:156-172 | wherever the cursor is put, the clamps leave it on a drawn row of a window that does not start too far down |
| `Table.ScrollStaysInWindow` | termui/table.go:174-221 | every scroll and click keeps that, also over rows that have been added |
| `Table.ScrollSelects` | termui/table.go:174-212 | which row each scroll selects: one, half a page or a page away, but not beyond the first or last |
| `Table.WindowMovesLeast` | termui/table.go:156-172 | no window that shows the selected row is nearer to the one before |
| `Table.TopNeverNegative` | termui/table.go:156-221 | at any height and with any rows, no scroll moves the window above the first row |
| `Table.StepsUpRecover` | termui/table.go:156-177 | from any state, one step up brings the cursor back into view if and only if not both window and cursor were beyond the rows; two always do |
| `Table.Table.ScrollUp` | termui/table.go:174-177 | one up, clamped, and the tracked item forgotten |
| `Table.Table.ScrollDown` | termui/table.go:179-182 | one down |
| `Table.Table.ScrollTop` | termui/table.go:184-187 | to the first row |
| `Table.Table.ScrollBottom` | termui/table.go:189-192 | to the last row |
| `Table.Table.ScrollHalfPageUp` | termui/table.go:194-197 | half a page up, halved toward zero, to the row that `ScrollSelects` gives |
| `Table.Table.ScrollHalfPageDown` | termui/table.go:199-202 | half a page down, to the row that `ScrollSelects` gives |
| `Table.Table.ScrollPageUp` | termui/table.go:204-207 | a page up, to the row that `ScrollSelects` gives |
| `Table.Table.ScrollPageDown` | termui/table.go:209-212 | a page down, to the row that `ScrollSelects` gives |
| `Table.Table.HandleClick` | termui/table.go:214-221 | a click inside the table moves the cursor as the next two rows say, one outside does nothing |
| `Table.ClickSelectsRow` | termui/table.go:217-219 | a click on a printed row moves the cursor to exactly that row, and not the window |
| `Table.ClickOnHeaderScrolls` | termui/table.go:217-219 | a click on the header moves the window up by a row, if there is one above |
| `Table.ClickOutside` | termui/table.go:214-221 | a click outside the table changes nothing |
| `Table.Table.Draw` | termui/table.go:85-134 | prints exactly the rows of the window; with rows told apart, at most one is under the cursor, namely the tracked item's or, without one, the cursor's, and the cursor moves there |
| `Table.PrintedRows` | termui/table.go:92-92 | the window has one row less than the table is high, from its top on, as long as there are rows, each once and in order |
| `Table.WindowInvariant` | termui/table.go:92-221 | from the initial state, over any run of scrolls, clicks, draws and growing rows at one height, the cursor is on a row that is drawn |
| `Table.DrawNeverGivesUp` | termui/table.go:85-89 | over any run, with rows coming and going and the table changing its size, the error branch of `Draw` is not reached |
| `Proc.FilterProcs` | widgets/proc.go:124-135 | keeps, in order, the processes that pass |
| `Proc.FilterKeepsPassing` | widgets/proc.go:124-135 | each passing process as often as it was there, no other |
| `Proc.PassesIff` | widgets/proc.go:124-135 | a process passes if and only if the filter occurs in its command line or in its PID |
| `Proc.GroupProcs` | widgets/proc.go:258-289 | one group for each command, no two with the same name, with the number and the totals of its processes, in any order |
| `Proc.GroupingConserves` | widgets/proc.go:255-289 | the counts add up to the number of processes, CPU and memory to their totals |
| `Proc.StringLessIsStrictOrder` | widgets/proc.go:357-359 | comparing names is a strict total order |
| `Sequences.Sort` | widgets/proc.go:178-195 | a permutation, in which no element comes behind one it should precede whenever the comparison is a weak order |
| `Proc.Sort` | widgets/proc.go:178-195 | a permutation in which no process comes behind one it should precede, for each of the orders, as the next row spells out |
| `Proc.OrderOnScreen` | widgets/proc.go:178-195 | what that means on the screen: greatest loads, memory and counts first, least PIDs first, names from A to Z |
| `Proc.GroupingSorted` | widgets/proc.go:172-173 | a grouping stays one however it is sorted |
| `Proc.RowsIdentified` | widgets/proc.go:199-219 | the identifying column tells all rows apart: names in grouped rows, PIDs in the others |
| `Proc.ColumnsOfRow` | widgets/proc.go:206-217 | a row has the count or PID, the name or command line, the CPU and the memory of its process, in this order |
| `Proc.ProcWidget.SortProcs` | widgets/proc.go:159-196 | sorts the list that is shown and leaves the other alone |
| `Proc.ProcWidget.ConvertProcsToTableRows` | widgets/proc.go:199-219 | the table shows the list that is shown, row by row, with all four columns |
| `Proc.ProcWidget.Update` | widgets/proc.go:137-155 | takes over the reported processes, scaled and filtered, and restores the widget's invariant from any state |
| `Proc.PerCpuShares` | widgets/proc.go:144-147 | as many scaled loads as there are CPUs make the reported one, and nothing else of a process changes |
| `Proc.ProcWidget.ChangeProcSortMethod` | widgets/proc.go:221-228 | keeps the invariant and the processes; if the order changes, it scrolls to the top and forgets the tracked item, else nothing moves |
| `Proc.ProcWidget.ToggleShowingGroupedProcs` | widgets/proc.go:230-240 | keeps the invariant and the processes, switches list and identifying column together, and scrolls to the top |
| `Proc.ProcWidget.Draw` | widgets/proc.go:119-122 | whichever list is shown, at most one row is under the cursor: the tracked item's, wherever it is in the window |

## Left out

- Floating point: samples, weights and loads are exact reals, so rounding, infinities and NaN are not modelled.
- `LineGraph.LineGraph.Draw`: asks for a width of at least one, a height and a scale that are not negative, and samples from 0 to 100; at width zero the cut of a long series slices from a negative index and panics, and other samples index outside the colour array.
- `LineGraph.PruningIsInvisible`: speaks of positive scales, because at scale zero no series ever reaches the wall.
- `Sparkline.SparklineGroup.Draw`: asks for a width of at least one, for the same reason as above, and for sparklines that are not the same object twice.
- `Drawille.Canvas.Get`: asks for remainders that are not negative, because other points index the table of dots with a negative number and panic.
- `Proc.ProcWidget.Draw`: asks for processes with different PIDs in 64 bits, as the system reports them.
- `Proc.ProcWidget.Update`: asks for at least one CPU; if counting them failed, the load is divided by a zero that reals do not divide by, and floats turn it into infinities and NaNs, which have no order to sort by.
- `Config.RoundTrip`: the wording of the comment lines in the file is a parameter; that they start with a number sign and hold no line feed is what reading depends on.
- `Config.RoundTripIffClean`: asks that no scheme file gives its scheme a name with a line feed, and that the settings read into are printable, as the built-in ones are.
- `Config.Config.Load`: looking up a colour scheme and parsing a duration are partial maps given from outside; lower case is that of ASCII letters, in keys too; error texts, log lines for deprecated keys, finding the file and the fields `Tr`, `ConfigDir`, `ConfigFile` and `Test` are not modelled.
- `Logging.HistoryIsKept`: `os.Stat` tells the truth about which files exist; a `Stat` that fails on a file that is there, other processes that touch the log, and stderr output that bypasses `Write` are not modelled.
- `Sequences.Sort`: `sort.Sort` is not part of this model; an insertion sort through `Swap`, by what `Less` answers, stands for it, and its contract only promises what any correct sort does. `NaturalOrder.Sort` asks `Less` about different names only, as the keys of a map are.
- `Proc.ProcWidget.ConvertProcsToTableRows`: how a load is formatted is a parameter; the header's arrows are not modelled.
- `Proc.Sort`: lower case is that of ASCII letters in command names.
- `Table.Table.Draw`: header, columns, styles and the location text are not modelled, only which rows are printed and which of them is under the cursor.
- `Layout.Layout`: building the widgets and finding them in the grid is not modelled; a share divided by a total of zero is infinite.
- `LayoutParser.ParseLayout`: the translations in log lines are not modelled.
- `LayoutParser.CaseDoesNotMatter`: lower case is that of ASCII letters, so widget names with other letters, of which there are none, are not covered.
- Lines longer than 64 KiB, at which `bufio.Scanner` stops, in both files that are read.
- The canvas' `SetText`, `GetCharacter`, `Frame` and `DrawPolygon`, block borders, sparkline titles: easy members, or unused by the graph.
- Goroutines and locks: every update and draw is one atomic step.
- Device readers, `ps`, `kill`, `nvidia-smi`, HTTP polling, key events, the filter entry, command line and translations: input and output with little logic of their own.
