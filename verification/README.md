# Verified models of the Livecast monitor

Four parts of the monitor are modelled here, each in the form its code has: objects that are updated in
place are classes with frames, loops are loops with invariants, and each method is proved against functions
and predicates whose own properties are proved as lemmas.

1. **The tree list control** (`3rdparty/treelistctrl`), without its painting. `TreeList.Window` and
   `TreeList.Item` carry the fields of the window and its items: child lists and parent links, the expand and
   highlight flags, the cursors (current, shift and selected item), the dirty bit, the line height and the
   rows' positions. The window keeps, as a ghost, the *shape* of its tree, a `Forest` (`OrderedForest`), and the
   set of items that were freed. `Window.Valid` says that all links agree with the shape, that the three cursors
   are null or in the tree, that no item of the tree was freed, and that, unless the window is dirty, every row
   is sized and Y never goes up along the shown order, staying the same only over rows without height. A walk of
   the tree reads only links of items in the tree, so while `Linked` holds it cannot reach a freed item; deletion
   keeps `Linked` and the cursors right at every point where it selects. `ForestWalk` has the preorder walks, the
   successor and predecessor, and ranges;
   `ForestEdit` has the changes of shape; `ForestSearch` has the search that goes round, and when it ends;
   `RowLayout` has the layout pass as a function of the rows it is asked for. `TreeRuns` has runs: a list of
   operations is data, what each operation does is a relation `Effect` on snapshots of the window, and what holds
   over whole runs is proved from that relation.
2. **The status schema** (`src/gui/StatusSchema.cc`). `SchemaLayout` has the geometry on values: boxes, the
   unsigned arithmetic in which masterboxes are placed, lines and crossings. `StatusSchema.Schema` has the
   servers ordered by id, the links, and the two lists of lines.
3. **The rendezvous** (`src/monitor/LivecastConnection.cc`). `Rendezvous` is a state machine: a step is one
   atomic action of one of any number of callers, or of a handler in the strand. The outcomes of name lookup,
   connecting and exchanging are free choices. `Fairness` has its infinite runs, in which threads are scheduled
   fairly: who can act again and again does act again and again.
4. **The index and the status round** (`src/monitor/MonitorConfiguration.cc`, `src/monitor/StreamInfos.cc`).
   `StatusMerge` merges replies, `ServerIndex` says which servers and keys a list of rows gives, and `Monitor` has
   the classes `StreamInfos` and `MonitorConfiguration`.

What user code allows and what servers reply are inputs. `Window.answers` gives the answer to each event that
user code may veto, and `asked` counts these events, so that a contract says that everything was allowed by
`Granted`, over the events of the call. The replies of a round are a function of the round, the wing, the place of
the server in its wing and the connection. Each theorem holds for all such functions.

## What was found

- Range selection compares the Y of the two ends. With variable row heights a height is stored in an unsigned
  char, so a row that needs a multiple of 256 pixels gets height 0 and shares its Y with the next row. When the
  item given second comes first in the shown order and only such rows lie from it to the other, the selection
  starts at the wrong end and goes round past the last row and the top; it is then exact only if the root is shown
  and there are no other rows than these two. In all other cases it is exact (`Window.RangeByRows`; a window in
  which it goes wrong: `WrongWayRange`).
- When the selected item is deleted and user code vetoes the selection of the current item in its place, that item
  counts as selected all the same and is not highlighted: with a single selection the hand-over leaves exactly the
  selected item highlighted if and only if user code allows it or there is no current item (`Window.LetGo`).
- A caller of `LivecastConnection::status` whose exchange raised an error, or whose name lookup failed before
  any operation had ever been posted, never returns and keeps the outer mutex for good. With it every caller that
  still queues for that mutex never returns. Nobody else is held up: a call that has not returned can still return
  if and only if no call is in that state (`ReturnsUnlessBlocked`, phase by phase `ReturnsUnlessHopeless`, with
  runs that end there: `HopelessLookup`, `HopelessExchange`, `HopelessQueue`). In an infinite run with fair threads
  every call does return, if and only if no call ever gets into that state; no spurious wake-up is needed for it
  (`Fairness.FairRunsReturn`, with a run of each kind: `OneCallReturns`, `OneCallBlocked`).
- The order of replies matters to the global status exactly when some say nothing and all others say the same
  thing, which is not an error (`OrderDoesNotMatter`, `OrderMatters`).
- A server whose reply contains none of the known words keeps the status it had (`OwnReply`).
- Painting starts at 0 and the layout pass at 2, so painting moves every shown row up by 2
  (`Window.OnPaint`).
- With a coordinate 0 standing for "no crossing", a strict crossing at a coordinate 0 is lost; lines drawn
  for links have none (`LostCrossing`, `CrossingIsNotZero`).
- With a shown root `FindItem` goes round and round exactly if there is a start item, stepping from the root does
  not meet it, and nothing matches in what is met from the start item and from the root: so from an item under a
  collapsed parent when only expanded items are searched, and from any item but the root when only its level is
  (`ForestSearch.EndsExactly`, `ForestSearch.NeverEnds`).
- With a hidden root `FindItem` always ends, but it goes round to the second child of the root and not to the
  first: from a start item at neither end of the rows it does not look at all of them
  (`ForestSearch.HiddenLooksAtAll`, `ForestSearch.HiddenMiss`).

## Model

| member | source | states |
|---|---|---|
| TreeList.Window.constructor | 3rdparty/treelistctrl/wx/treelistctrl.cc:1940-1962 | a new window satisfies the invariant: empty tree, no cursors, not dirty |
| TreeList.Window.GetNextSibling | 3rdparty/treelistctrl/wx/treelistctrl.cc:2455-2468 | the next sibling in the shape, or nothing; nothing for the root |
| TreeList.Window.GetPrevSibling | 3rdparty/treelistctrl/wx/treelistctrl.cc:2470-2483 | the previous sibling in the shape, or nothing |
| TreeList.Window.GetNext | 3rdparty/treelistctrl/wx/treelistctrl.cc:2486-2504 | the climb ends, by depth, at the first item after the item's branch, or the first child when entered |
| TreeList.Window.GetPrev | 3rdparty/treelistctrl/wx/treelistctrl.cc:2506-2521 | the descent ends at the last item before this one in the walk through the full tree or the expanded items |
| ForestWalk.NextIsSuccessor | 3rdparty/treelistctrl/wx/treelistctrl.cc:2486-2504 | what GetNext computes is the successor in the preorder walk, for the full tree and for expanded items |
| ForestWalk.PrevIsPredecessor | 3rdparty/treelistctrl/wx/treelistctrl.cc:2506-2521 | what GetPrev computes is the predecessor in the preorder walk |
| ForestWalk.NextPrevInverse | 3rdparty/treelistctrl/wx/treelistctrl.cc:2486-2521 | y is next after x if and only if x is previous before y |
| ForestWalk.AfterSteps | 3rdparty/treelistctrl/wx/treelistctrl.cc:2486-2504 | n steps of next from the first root lead to the n-th item of the walk, and to nothing past its end |
| ForestWalk.StepsMeet | 3rdparty/treelistctrl/wx/treelistctrl.cc:2486-2504 | stepping through the full tree meets every item, in fewer steps than there are items |
| ForestWalk.StepsOnce | 3rdparty/treelistctrl/wx/treelistctrl.cc:2486-2504 | it meets none twice and stops after exactly as many steps as there are items |
| TreeList.Window.GetChildrenCount | 3rdparty/treelistctrl/wx/treelistctrl.cc:1761-1770 | the recursive count is the number of all items below the item |
| TreeList.Window.UnselectAllChildren | 3rdparty/treelistctrl/wx/treelistctrl.cc:2883-2899 | exactly the highlights of the branch go; the selected item is forgotten if it was highlighted there |
| TreeList.Window.UnselectAll | 3rdparty/treelistctrl/wx/treelistctrl.cc:2901-2907 | no highlight stays; a highlighted selected item is forgotten |
| TreeList.Window.Unselect | 3rdparty/treelistctrl/wx/treelistctrl.cc:2875-2881 | only the selected item loses its highlight, and it is forgotten |
| TreeList.Window.TagAllChildrenUntilLast | 3rdparty/treelistctrl/wx/treelistctrl.cc:2934-2950 | highlights exactly what is visible in the branch, in walk order, up to the last item; says whether it was met |
| TreeList.Window.TagNextChildren | 3rdparty/treelistctrl/wx/treelistctrl.cc:2911-2932 | highlights exactly what follows the branch in walk order, past the root from the top, up to the last item |
| TreeList.Window.ShownRange | 3rdparty/treelistctrl/wx/treelistctrl.cc:2911-2950 | for two shown items in order, tagging from one until the other reaches exactly the shown items between them |
| TreeList.Window.RangeByRows | 3rdparty/treelistctrl/wx/treelistctrl.cc:2984-2998 | between two shown items what is highlighted is exactly the items from one to the other, if and only if the range does not go the wrong way round over rows without height, or a tree with a shown root shows no more than the two |
| TreeList.WrongWayRange | 3rdparty/treelistctrl/wx/treelistctrl.cc:2984-2998 | gives a window whose user code allows everything and two shown rows: the range from one to the other highlights more than the two |
| TreeList.Window.SelectItem | 3rdparty/treelistctrl/wx/treelistctrl.cc:2952-3018 | vetoed: nothing changes; a range: what is tagged from the upper end on, which for two shown items is their range exactly as RangeByRows says; a single item: toggled, others kept or not as asked; the invariant holds |
| TreeList.Window.SelectedAlone | 3rdparty/treelistctrl/wx/treelistctrl.cc:2970-3009 | with the others kept only the item's own highlight changes and the selected item stays; with the others unselected the item alone is highlighted and selected, in multiple mode always and otherwise after any single selection |
| TreeList.Window.DoInsertItem | 3rdparty/treelistctrl/wx/treelistctrl.cc:2581-2605 | a new leaf at the given place, the window dirty, every other child list and all highlights as before; nothing without a parent |
| TreeList.Window.AddRoot | 3rdparty/treelistctrl/wx/treelistctrl.cc:2607-2634 | a single root; refused when there is one; a hidden root is open and the current item is cleared |
| TreeList.Window.LetGo | 3rdparty/treelistctrl/wx/treelistctrl.cc:2748-2770 | no cursor stays on an item that goes; if exactly the selected item was highlighted, it is so afterwards if and only if user code allowed the hand-over or there is no current item |
| TreeList.Window.DoDeleteItem | 3rdparty/treelistctrl/wx/treelistctrl.cc:2732-2781 | the branch below goes and is freed, cursors leave it; if user code allows all it is asked, exactly the selected item stays highlighted beside what is being deleted |
| TreeList.Window.Delete | 3rdparty/treelistctrl/wx/treelistctrl.cc:2686-2701 | for the root or nothing, nothing, and user code is not asked; otherwise as for DeleteBelow; if user code allows all it is asked, exactly the selected item stays highlighted; if the selected item stays, so does the selection |
| TreeList.Window.DeleteBelow | 3rdparty/treelistctrl/wx/treelistctrl.cc:2686-2701 | vetoed or not: exactly the branch is freed, the other lists are as before, no cursor is stale, the current item is the old next sibling if it was deleted, null if it was below, else unchanged |
| TreeList.Window.DeleteChildren | 3rdparty/treelistctrl/wx/treelistctrl.cc:2716-2730 | exactly what is below the item is freed, and cursors that were there are null; the selection as for Delete |
| TreeList.Window.DeleteRoot | 3rdparty/treelistctrl/wx/treelistctrl.cc:2703-2713 | the tree is empty, all items are freed and all cursors null |
| TreeList.Window.SetCurrentItem | 3rdparty/treelistctrl/wx/treelistctrl.cc:2786-2799 | any item, or none, becomes the current one; the invariant holds |
| TreeList.Window.SetShiftItem | 3rdparty/treelistctrl/wx/treelistctrl.cc:4247-4251 | in multiple mode with shift down the current item is remembered unless one is; otherwise what was remembered is forgotten |
| ForestEdit.RearrangeLinks | 3rdparty/treelistctrl/wx/treelistctrl.cc:2581-2605 | giving one item another list of children changes no other item's children and no other item's parent |
| ForestEdit.InsertChild | 3rdparty/treelistctrl/wx/treelistctrl.cc:2594-2602 | an insertion adds the new item and no other, and moves none |
| ForestEdit.DropChild | 3rdparty/treelistctrl/wx/treelistctrl.cc:2686-2701 | dropping one child removes exactly its branch |
| ForestEdit.TrimLast | 3rdparty/treelistctrl/wx/treelistctrl.cc:2762-2772 | emptying and dropping the last child of a list removes exactly its branch and leaves the list one shorter |
| ForestEdit.PermuteChildren | 3rdparty/treelistctrl/wx/treelistctrl.cc:3143-3160 | another order of the children keeps all items |
| TreeList.Window.Expand | 3rdparty/treelistctrl/wx/treelistctrl.cc:2803-2820 | user code is asked exactly if a collapsed item has a plus, and the item is expanded exactly if it was or user code allows it; the window is dirty if and only if something changed or it was |
| TreeList.Window.Collapse | 3rdparty/treelistctrl/wx/treelistctrl.cc:2839-2856 | user code is asked exactly if an expanded item has a plus, and the item is collapsed exactly if it was or user code allows it |
| TreeList.Window.ExpandAll | 3rdparty/treelistctrl/wx/treelistctrl.cc:2822-2837 | everything with a plus in the branch is expanded if and only if user code allows all that it is asked, at most once for each item; nothing is closed and nothing outside changes |
| TreeList.Window.AllExpanded | 3rdparty/treelistctrl/wx/treelistctrl.cc:2822-2837 | when everything with a plus is expanded the expanded walk and the full walk coincide |
| TreeList.Window.EnsureVisible | 3rdparty/treelistctrl/wx/treelistctrl.cc:3069-3085 | only ancestors are expanded; the item is among the visible ones if and only if user code allows all that it is asked; rows are laid out |
| TreeList.Window.IsVisible | 3rdparty/treelistctrl/wx/treelistctrl.cc:2339-2362 | the upward walk says yes if and only if the item is in the walk through open items |
| TreeList.Window.VisibleWalk | 3rdparty/treelistctrl/wx/treelistctrl.cc:2339-2362 | with the root shown or expanded, what GetNext meets and what IsVisible accepts are the same, in the same order |
| TreeList.Window.GetLastVisible | 3rdparty/treelistctrl/wx/treelistctrl.cc:2555-2563 | the last item of the expanded walk |
| TreeList.Window.FindItem | 3rdparty/treelistctrl/wx/treelistctrl.cc:3162-3220 | a search that can end does, in any of three modes and with a shown or hidden root; it returns the first item in the order in which it looks whose text is the one looked for, or begins with it, letter by letter, folded if case does not count; nothing if and only if no item of that order has such a text |
| TreeList.Window.MatchIs | 3rdparty/treelistctrl/wx/treelistctrl.cc:3193-3202 | the letters of the text, or its first letters, are those looked for, or fold to the same |
| ForestSearch.EndsExactly | 3rdparty/treelistctrl/wx/treelistctrl.cc:3162-3220 | the probes of a search come to nothing, to the start item or to a hit if and only if the root is hidden, there is no start item, it is met from the root, or something ahead of it or met from the root is a hit |
| ForestSearch.NeverEnds | 3rdparty/treelistctrl/wx/treelistctrl.cc:3162-3220 | a tree and a start item under a collapsed parent from which a search without hits never ends |
| ForestSearch.OrderIsCyclic | 3rdparty/treelistctrl/wx/treelistctrl.cc:3162-3220 | from an item met from a shown root the search looks at what comes after it and then at what comes before it |
| ForestSearch.RoundIsWalk | 3rdparty/treelistctrl/wx/treelistctrl.cc:3162-3220 | what is met from the root is the whole walk through the full tree or the expanded items |
| ForestSearch.LevelOrder | 3rdparty/treelistctrl/wx/treelistctrl.cc:3162-3220 | along a level with a shown root the later siblings are looked at and then the root alone |
| ForestSearch.FirstStop | 3rdparty/treelistctrl/wx/treelistctrl.cc:3162-3220 | the first probe at which a search stops is the first hit in the order of looking, or comes after all of it |
| ForestSearch.HiddenLooksAtAll | 3rdparty/treelistctrl/wx/treelistctrl.cc:3162-3220 | with a hidden root a search looks at all other rows if and only if it starts at the first or the last |
| ForestSearch.HiddenMiss | 3rdparty/treelistctrl/wx/treelistctrl.cc:3162-3220 | three rows under a hidden root: from the second one the first is not looked at |
| TreeList.Window.CalculateSize | 3rdparty/treelistctrl/wx/treelistctrl.cc:4433-4456 | the row height is what the row needs, cut to a byte, and the line height grows to the need |
| TreeList.Window.NeedIs | 3rdparty/treelistctrl/wx/treelistctrl.cc:4433-4456 | a row needs the height of its text, or of a blank if it has none, or of the image if that is higher, and 2 more below 30, else a tenth more |
| TreeList.Window.LevelXIs | 3rdparty/treelistctrl/wx/treelistctrl.cc:4458-4480 | where a level starts: each one indent further than the level above, counted from the first below a hidden root |
| TreeList.Window.SettledLefts | 3rdparty/treelistctrl/wx/treelistctrl.cc:4458-4516 | in a settled layout every shown item starts where the level of its depth does |
| TreeList.Window.CalculateLevel | 3rdparty/treelistctrl/wx/treelistctrl.cc:4458-4495 | a layout pass over a branch puts its shown items row below row as RowLayout.IsPass says, and moves no other |
| TreeList.Window.CalculatePositions | 3rdparty/treelistctrl/wx/treelistctrl.cc:4497-4516 | all shown items are laid out from the top; rows are sized, Y rises along them, the line height covers all rows |
| TreeList.Window.LayoutPass | 3rdparty/treelistctrl/wx/treelistctrl.cc:4433-4516 | fixpoint: a second pass keeps the line height and settles, and a pass over settled rows moves nothing |
| RowLayout.PassIsPlan | 3rdparty/treelistctrl/wx/treelistctrl.cc:4458-4495 | the row-by-row relation has exactly one solution, the pass computed row after row |
| RowLayout.TopsRise | 3rdparty/treelistctrl/wx/treelistctrl.cc:4458-4495 | Y never goes up along the rows of a pass, and two rows have the same Y exactly if those from one to the other have no height |
| RowLayout.LineSettled | 3rdparty/treelistctrl/wx/treelistctrl.cc:4433-4456 | a pass over rows that the line height covers keeps it, and one pass is enough to cover all rows |
| RowLayout.SettledTiles | 3rdparty/treelistctrl/wx/treelistctrl.cc:4458-4516 | after a settled pass the rows tile the plane from 2 to 2 plus the sum of their heights |
| RowLayout.HitInvertsTiling | 3rdparty/treelistctrl/wx/treelistctrl.cc:1786-1893 | the first band that contains a point is the one with the point strictly below its top, empty bands included, and there is one exactly inside the tiling |
| RowLayout.ByteIsRemainder | 3rdparty/treelistctrl/wx/treelistctrl.cc:4452-4455 | a height stored in an unsigned char is its remainder by 256 |
| TreeList.Window.HitTest | 3rdparty/treelistctrl/wx/treelistctrl.cc:1786-1893 | the first laid-out item whose band contains the point; nothing right of the header width |
| TreeList.Window.ItemAt | 3rdparty/treelistctrl/wx/treelistctrl.cc:3983-4010 | on rows stacked from any top, as layout and painting leave them, exactly the shown item whose row the point is in, and nothing outside the rows |
| TreeList.Window.SettledStacked | 3rdparty/treelistctrl/wx/treelistctrl.cc:4433-4516 | a settled layout is stacked from 2 |
| TreeList.Window.GetSize | 3rdparty/treelistctrl/wx/treelistctrl.cc:1772-1784 | the lowest bottom edge of the visible rows of a branch |
| TreeList.Window.ContentBottom | 3rdparty/treelistctrl/wx/treelistctrl.cc:1772-1784 | with a shown root and stacked rows the reported size is where the last row ends |
| TreeList.Window.PaintLevel | 3rdparty/treelistctrl/wx/treelistctrl.cc:3501-3673 | painting puts the shown items of a branch row below row, with the heights they have, and moves no other |
| TreeList.Window.OnPaint | 3rdparty/treelistctrl/wx/treelistctrl.cc:3691-3730 | afterwards the shown rows are stacked from 0; on a settled layout every shown item keeps its x and ends exactly 2 higher; the invariant holds |
| TreeList.Window.SortChildren | 3rdparty/treelistctrl/wx/treelistctrl.cc:3143-3160 | the same children in the order of their texts, forward or backward; no other list changes; dirty when there were several |
| TreeList.Window.SortedMeans | 3rdparty/treelistctrl/wx/treelistctrl.cc:3124-3141 | of two children the text of the one that stands first is the beginning of the other or smaller at the first difference, or the other way round when a column is given and reversed |
| TreeList.Window.SetWindowStyle | 3rdparty/treelistctrl/wx/treelistctrl.cc:2113-2121 | a change of the selection mode takes all highlights away; the invariant holds |
| TreeList.Window.OnIdle | 3rdparty/treelistctrl/wx/treelistctrl.cc:4402-4413 | afterwards not dirty and the invariant holds, so Y follows the shown order |
| TreeRuns.Run | 3rdparty/treelistctrl/wx/treelistctrl.cc:2581-3018 | any list of operations on any items, in any window that satisfies the invariant: it holds afterwards, and each step from one snapshot to the next is the effect of its operation |
| TreeRuns.EffectFrees | 3rdparty/treelistctrl/wx/treelistctrl.cc:2581-2781 | from its effect alone: an operation frees exactly what may leave the tree, and un-frees nothing |
| TreeRuns.FreedForGood | 3rdparty/treelistctrl/wx/treelistctrl.cc:2581-2781 | over any run freed items stay freed and never come back, and an item that goes is freed |
| TreeRuns.SingleThroughout | 3rdparty/treelistctrl/wx/treelistctrl.cc:2686-3018 | over any run of plain operations in which user code allows all it is asked, exactly the selected item is highlighted at all times |
| SchemaLayout.BoxPlace | src/gui/StatusSchema.cc:207-279 | a box is as high as two thirds of the distance of its column, at most 204, and higher than nothing from a distance of 2; the distance is the largest that fits; masterboxes alternate above and below the middle, RTMP streamers go up, HLS streamers down; left edges and width |
| SchemaLayout.BoxInside | src/gui/StatusSchema.cc:199-279 | every box lies on the 1280 by 1024 canvas, for any number of boxes in its column |
| SchemaLayout.BoxesApart | src/gui/StatusSchema.cc:199-279 | two boxes that are not both streamdups do not overlap, RTMP and HLS streamers included |
| SchemaLayout.MachineYIsIntended | src/gui/StatusSchema.cc:216-229 | the unsigned evaluation with a negative multiplier gives the intended signed position |
| StatusSchema.Schema.AddServer | src/gui/StatusSchema.cc:124-143 | the server goes to its place by id, or nowhere when the id is there; every server of every column stands at the box of its rank again |
| StatusSchema.Schema.ComputeCoord | src/gui/StatusSchema.cc:207-279 | all servers of the column stand at the boxes of their ranks, and no other moves |
| StatusSchema.Schema.WhereServersStand | src/gui/StatusSchema.cc:124-279 | the same for every server of the last three columns after any run of additions, where its number is that of the servers of its column up to it in the order of the ids |
| StatusSchema.Schema.WhereDupsStand | src/gui/StatusSchema.cc:199-205 | every streamdup stands at (128, 410) and is 153 by 204 |
| StatusSchema.Schema.GapBetween | src/gui/StatusSchema.cc:207-279 | servers of one column have one height, at most their distance, and are at least that distance apart from top to top |
| StatusSchema.Schema.NoOverlap | src/gui/StatusSchema.cc:124-279 | after any run of additions every server is on the canvas and only streamdups can overlap |
| StatusSchema.Schema.LinkAllServers | src/gui/StatusSchema.cc:150-189 | the links of all servers in order of id are appended, and each server gets as sources the servers that feed it |
| StatusSchema.Schema.WhoFeeds | src/gui/StatusSchema.cc:150-189 | the sources of a masterbox are the streamdups, those of a streamer the masterboxes that forward, each once and in order of id |
| StatusSchema.WiringProper | src/gui/StatusSchema.cc:150-189 | every link leads from the border to a streamdup or joins servers that feed each other |
| StatusSchema.Schema.ReadyIsLinkable | src/gui/StatusSchema.cc:473-539 | on linked servers none of the asserts on links can fire |
| StatusSchema.Schema.ComputeLink | src/gui/StatusSchema.cc:473-580 | one border line for each target of a link without source, else two horizontal lines and a vertical one, entering the target at the place of the source |
| StatusSchema.RouteMeets | src/gui/StatusSchema.cc:512-577 | the three lines: from the middle of the side of the source that faces the target, a margin for each link further, up or down, and on to the facing side of the target |
| StatusSchema.BorderLineEnds | src/gui/StatusSchema.cc:478-510 | the line from the left border to the left side of a streamdup, or from the right border to the right side of a streamer, at the middle of the side |
| StatusSchema.PairsFormula | src/gui/StatusSchema.cc:150-189 | the number of pairs is streamdups times masterboxes plus forwarding masterboxes times streamers |
| StatusSchema.WiringTotals | src/gui/StatusSchema.cc:150-189 | the links ask for one vertical line for each pair, and for one horizontal line for each streamdup and two for each pair |
| StatusSchema.Schema.Entries | src/gui/StatusSchema.cc:517-541 | sources enter a box in order, at distinct places strictly inside it exactly if it is at least one higher than their number |
| StatusSchema.LinesAreStraight | src/gui/StatusSchema.cc:543-576 | horizontal lines are horizontal, vertical ones vertical, and none has a negative coordinate |
| SchemaLayout.Intersect | src/gui/StatusSchema.cc:582-624 | the point is added exactly if the lines cross strictly, not at a coordinate 0, and it is new |
| SchemaLayout.CrossingIsCommon | src/gui/StatusSchema.cc:582-624 | a strict crossing of a horizontal and a vertical line is a point strictly inside both |
| SchemaLayout.CrossingIsNotZero | src/gui/StatusSchema.cc:582-624 | without negative coordinates no strict crossing is at a coordinate 0 |
| SchemaLayout.LostCrossing | src/gui/StatusSchema.cc:582-624 | with negative coordinates one is |
| StatusSchema.Schema.FindCrossings | src/gui/StatusSchema.cc:338-351 | for each horizontal line exactly the points, without duplicates, where it strictly crosses a vertical one |
| StatusSchema.Schema.Draw | src/gui/StatusSchema.cc:281-374 | from a linked schema: the lines are those of its links, their numbers follow from the columns and the crossings are exact |
| StatusSchema.Schema.ArrowBetween | src/gui/StatusSchema.cc:473-577 | among the drawn lines, for each streamdup and masterbox and each forwarding masterbox and streamer, are three that join them |
| StatusSchema.LinesMeet | src/gui/StatusSchema.cc:473-577 | such three lines start at the right side of the one at its middle, each starts where the one before it ends, and the last ends in an arrow at the left side of the other |
| StatusSchema.Schema.EntryPlace | src/gui/StatusSchema.cc:529-541 | the side is divided by one more than the sources, and a source enters at its place in the order of the ids |
| StatusSchema.Schema.ArrowsEnter | src/gui/StatusSchema.cc:517-577 | the arrows of two sources end on the left side in the order of their ids, each strictly inside it exactly if the box is at least one higher than their number |
| StatusSchema.Schema.LineFromBorder | src/gui/StatusSchema.cc:478-491 | into each streamdup leads a drawn line from the left border, at its middle |
| StatusSchema.Schema.WhoseAcross | src/gui/StatusSchema.cc:473-577 | every drawn horizontal line leads from the border into a streamdup, or is the first or the last between two servers that feed each other |
| StatusSchema.Schema.WhoseUpright | src/gui/StatusSchema.cc:473-577 | every drawn vertical line leads between two such servers, from the middle of the one to the entry into the other |
| StatusSchema.Schema.Show | src/gui/StatusSchema.cc:124-197 | the same for any servers added to an empty schema and linked once: its servers are those wanted, of several with one id the first |
| Rendezvous.StepInv | src/monitor/LivecastConnection.cc:37-202 | every step of every caller and handler keeps the invariant of the two mutexes, the flag and the result trees |
| Rendezvous.Isolation | src/monitor/LivecastConnection.cc:37-202 | in any interleaving at most one operation is in flight, and a call that returned has exactly one entry, its own, in its own tree |
| Rendezvous.ReturnedIsFinal | src/monitor/LivecastConnection.cc:37-59 | no later step writes to the tree of a call that returned |
| Rendezvous.NoLostWakeUp | src/monitor/LivecastConnection.cc:52-58 | a waiting caller has its handler to run, or finds the flag set and a notification on its way, or its exchange broke, or its lookup failed before anything was posted |
| Rendezvous.ReturnsUnlessBlocked | src/monitor/LivecastConnection.cc:37-202 | a call, whatever it is at, has returned or can still return if and only if it has returned or no call is hopeless |
| Rendezvous.ReturnsUnlessHopeless | src/monitor/LivecastConnection.cc:37-202 | phase by phase: a started one if and only if it is not hopeless, one inside before that always, one that queues if and only if nobody is hopeless |
| Rendezvous.HopelessBlocks | src/monitor/LivecastConnection.cc:37-59 | while a call is hopeless no step lets any other return |
| Rendezvous.HopelessForever | src/monitor/LivecastConnection.cc:52-58 | a caller that cannot return stays so under every step |
| Rendezvous.CanReturn | src/monitor/LivecastConnection.cc:37-202 | from any state kept by the steps in which nobody is hopeless a run leads to the return of any given call |
| Rendezvous.HopelessLookup | src/monitor/LivecastConnection.cc:77-108 | a run in which a failed lookup blocks its caller for good |
| Rendezvous.HopelessExchange | src/monitor/LivecastConnection.cc:110-192 | a run in which a failed exchange does |
| Rendezvous.HopelessQueue | src/monitor/LivecastConnection.cc:37-108 | a run in which a caller behind such a one can never return |
| Fairness.FairRunsReturn | src/monitor/LivecastConnection.cc:37-202 | in any infinite run in which every thread and the strand are scheduled fairly, every call that is ever made returns if and only if no call is ever hopeless |
| Fairness.HolderReturns | src/monitor/LivecastConnection.cc:37-59 | whoever has got the outer mutex returns, however often it wakes up without a notification |
| Fairness.FreeSoon | src/monitor/LivecastConnection.cc:37-59 | the outer mutex is free again and again |
| Fairness.OneCallReturns | src/monitor/LivecastConnection.cc:37-202 | a fair run in which a call sleeps, is notified and returns |
| Fairness.OneCallBlocked | src/monitor/LivecastConnection.cc:77-108 | a fair run in which a call whose lookup failed never returns |
| StatusMerge.TrimLines | src/monitor/LivecastConnection.cc:212-225 | of a reply the last newline goes, and then everything from the newline before it on |
| StatusMerge.ReplySays | src/monitor/StreamInfos.cc:76-102 | a reply with WAITING in it means that, else one with INITIALIZING, else one with RUNNING, else one with ERROR; any other says nothing |
| StatusMerge.FirstWordGoes | src/monitor/StreamInfos.cc:244-270 | of a reply the first word goes with the space behind it; a reply of one word stays |
| StatusMerge.GetGlobalStatus | src/monitor/StreamInfos.cc:340-359 | the loop merges the parsed replies in order |
| StatusMerge.GlobalFrom | src/monitor/StreamInfos.cc:340-359 | the first reply that says anything decides if all from it on say the same, else it is an error |
| StatusMerge.GlobalMeans | src/monitor/StreamInfos.cc:340-359 | leading replies that say nothing are dropped; nothing left is unknown, all the same is that, anything else an error |
| StatusMerge.ErrorAbsorbs | src/monitor/StreamInfos.cc:340-359 | one error anywhere makes the whole an error |
| StatusMerge.OrderDoesNotMatter | src/monitor/StreamInfos.cc:340-359 | replies in another order give the same status unless silent ones are mixed with a single other status |
| StatusMerge.OrderMatters | src/monitor/StreamInfos.cc:340-359 | with such a mixture two orders give different results |
| ServerIndex.CollectedAreFirsts | src/monitor/StreamInfos.cc:199-226 | a list has no two servers with the same host and port, and holds the first of each, in order |
| Monitor.StreamInfos.AddServer | src/monitor/StreamInfos.cc:199-226 | the lists are those collected from what was added, this server included, in the right wing |
| Monitor.MonitorConfiguration.LoadStreamList | src/monitor/MonitorConfiguration.cc:308-378 | a stream for each id in the rows, and one connection for each streamdup host at port 1111, masterbox host at 2222 and streamer host at 3333 and 4444 that a row names, and no other |
| Monitor.MonitorConfiguration.LoadedServers | src/monitor/MonitorConfiguration.cc:334-353 | after loading the lists of a wing hold exactly: the streamdup and the masterbox of the first row of stream and wing that names their host and port, with all its fields, and an RTMP and an HLS streamer for each streamer host |
| ServerIndex.ListsGrow | src/monitor/MonitorConfiguration.cc:317-353 | the lists follow the order of the rows |
| ServerIndex.StreamersPaired | src/monitor/MonitorConfiguration.cc:346-353 | of the two streamers of a host the RTMP streamer stands just before the HLS streamer |
| Monitor.MonitorConfiguration.IndexAgrees | src/monitor/MonitorConfiguration.cc:308-378 | after loading, the connection map has exactly the keys (host, admin port) of all servers of all streams and wings |
| ServerIndex.KeysAgree | src/monitor/MonitorConfiguration.cc:343-375 | the keys named by rows are exactly the keys of the servers kept in the lists, although same servers are dropped |
| Monitor.ReadyForRounds | src/monitor/MonitorConfiguration.cc:308-378 | after loading every stream has the lists that its rounds ask for |
| Monitor.RoundHasConnections | src/monitor/MonitorConfiguration.cc:42-53 | after loading, no round can miss a connection |
| Monitor.MonitorConfiguration.GetConnection | src/monitor/MonitorConfiguration.cc:42-53 | the connection of the key, which is there |
| Monitor.ServerFromPort | src/monitor/MonitorConfiguration.cc:29-69 | each of the four ports has its own name and every other port is unknown |
| Monitor.StreamInfos.Status | src/monitor/StreamInfos.cc:43-174 | one entry for each server of both wings in order, with what it replied in this round; nothing but statuses changes in the lists; the global status is that of the primary wing; committed if and only if the tree changed |
| Monitor.StreamInfos.Round | src/monitor/StreamInfos.cc:43-174 | in any round after loading, in both wings: one entry for each server that the rows give, in list order, under its host and kind, with what it replied; the streamers of the primary wing decide the global status, or its masterboxes; the stream is ready for the next round |
| Monitor.StreamInfos.RoundDecides | src/monitor/StreamInfos.cc:228-281 | after a round the global status is the merge of what the streamers of the primary wing replied, in list order, if that says anything, and else the merge of what its masterboxes replied |
| Monitor.HeardMeans | src/monitor/StreamInfos.cc:55-60 | what is heard of a server is the reply of the connection of its host and admin port, without its first word and last line, read as a status |
| Monitor.StreamInfos.Rounds | src/monitor/StreamInfos.cc:43-174 | the same after any number of rounds, with the replies of the last one |
| Monitor.AskServer | src/monitor/StreamInfos.cc:59-112 | one more entry under the server's host and kind, with what its connection replied; the server's status is what the replies about it say last |
| Monitor.UpdateFrom | src/monitor/StreamInfos.cc:64-112 | exactly the replies about the server are completed with its protocol, port and leaf flag; no text changes |
| Monitor.AboutWhom | src/monitor/StreamInfos.cc:64-73 | a reply counts for the servers on its host of the kind it was asked from, or for all there if that kind is unknown |
| Monitor.LastSaid | src/monitor/StreamInfos.cc:64-105 | the last reply about a server that says anything gives its status; without one it keeps its own |
| Monitor.OwnReply | src/monitor/StreamInfos.cc:64-105 | with no earlier reply about it a server has the status of its own reply, or keeps its old one if that says nothing |
| Monitor.WingStatus | src/monitor/StreamInfos.cc:228-281 | the merge of the replies counted for streamers, and if that says nothing the merge of those counted for masterboxes |
| Monitor.WingReplies | src/monitor/StreamInfos.cc:244-277 | the replies counted for streamers and masterboxes are those of their lists, in order; streamdups have no part |

## Left out

- TreeList.Window.FindItem: the mode that searches visible items only, which depends on the scrolled view; for a search that never ends there is no result, so one that can end is asked for.
- TreeList.Window.IsVisible: the test whether the row is within the scrolled view.
- TreeList.Window.CalculateSize: the width of the item.
- TreeList.Window.HitTest: the hit flags and the column.
- TreeList.Window.ItemAt: the test whether the point is in the client area, and the hit flags.
- TreeList.Window.GetSize: the horizontal extent.
- TreeList.Window.EnsureVisible: scrolling.
- TreeList.Window.OnPaint: everything painted; only the positions it assigns are modelled.
- TreeList.Window.SortChildren: which of several orders the toolkit's sort gives to equal texts; the model inserts one by one.
- TreeRuns.Run: event handlers that change the tree during an event; they can only veto. Mouse and key handlers are compositions of these operations and are not modelled; Y and heights of rows are not in the snapshots.
- Texts and columns of items are fixed when the item is made; fonts, images, icons and the operations on header columns are not modelled.
- The sizes of buttons, images and indent, which painting computes anew, are fixed measures.
- In-place editing, dragging and tool tips, and the pointers to items that they keep.
- Virtual controls, which ask user code for texts.
- StatusSchema.Schema.ComputeLink: colours, pen styles and labels of lines, and scaling to the window; the step to the side is an unbounded integer, where the source's 32-bit product wraps beyond about 85 million links.
- StatusSchema.Schema.AddServer: counters of servers are unbounded naturals.
- Drawing a line around its crossings, which does not sort them.
- StatusSchema.Schema.NoOverlap: two streamdups, which share one place by construction.
- Rendezvous.Isolation: `reinit`, whose reply goes to the tree of the last `status` call; runs are of `status` calls. A resolver that yields no endpoint without raising an error, and errors raised while a timer is armed, are not modelled either.
- Fairness.FairRunsReturn: whether the platform's scheduler and mutexes are fair; the theorem is about runs in which they are.
- Sockets, buffers, authentication and the text of requests; their outcomes are free choices of a step.
- Monitor.StreamInfos.Status: the status details asked for with a second call to each server, and the callback's own work.
- Monitor.AskServer: the details asked for in the second call.
- Monitor.MonitorConfiguration.LoadStreamList: the database and the conversion of its fields; rows are typed.
- Dialogs, lists, menus, logging and option parsing.
