# Verified models of a game server's core

A Dafny project about the parts of The Forgotten Server that carry unbounded state and have hard
invariants. `dafny verify dfyconfig.toml` checks all of it.

What the server changes in place is modelled by classes and arrays that change in place; each such
method is proved against a specification, and the properties are proved about the specification.
All results hold for every input, every run or every reachable state unless a row says otherwise.

- `ItemForest`: items in containers, with parent links and cached weights. Every operation keeps
  every cached weight equal to the weight of everything held at any depth, and no chain of parents
  has a cycle.
- `ItemMoves`: moving and adding items. The answer of every call, the units moved, where the item
  itself is then, and the contents of all containers are determined; stacks stay between 1 and 100. A move conserves
  counts and lets no container grow beyond its capacity; when an add does not is stated exactly.
- `PropStreams`, `ItemCodec`, `MapItemCodec`: the byte form of items and of nested containers.
  Reading what was written gives the persisted view and stops at what follows; which items come
  back unchanged is stated as a condition on their fields.
- `RowCodec`: the row form of a player's items, written breadth first and rebuilt from the last row
  with push-front, up to the rebuilt objects and their weights.
- `ConditionCodec`: the condition stream of a player.
- `OtbLoader`: the explicit-stack parser of OTB files builds, on every input, the tree of a
  recursive grammar.
- `ContainerIteration`: the queue-driven iterator visits everything held exactly once, level by
  level.
- `Money`: paying and giving change out of a container, through everything it holds at any depth;
  coins come to lie on the ground only if the container has no space for them.
- `DecayWheel`: the four-bucket timing wheel; every item decays in exactly one computable tick.
- `TradeProtocol`: the trade protocol over all players, as steps and as the same steps on linked
  player objects. Whatever happens during a transfer, it is atomic.
- `TradedItems`: moves of items with any players who look on; which trades they close, and exactly
  when traded items stay apart.
- `TradeRange`: the range rule that decides who looks on. Over every run of requests, steps of
  players and moves of items, no traded item comes to lie in another one, and every offer is within
  one square of the player who makes it.
- `OpenContainers`: the containers that players hold open, and what is closed when somebody walks or
  an item moves: nobody can ask for a trade of what another player carries.
- `WalkCache`: the in-place shifts of the walk cache against a rebuild.
- `ConditionLedger`: what conditions add to a creature is taken back exactly.
- `TaskQueue`: the database task queue under every interleaving of threads: every task pushed while
  it runs is accepted, and popped in that order.
- `DamageList`: the rounds of a damage condition and the bound on their sum.
- `SpellArea`: spell areas, their rotations, and the tiles they hit.
- `Layouts`: samples of the stored forms, byte by byte and row by row.
- `Wrappers`, `Enums`, `Positions`: options, the absolute value, the numbers of skills and stats,
  and positions with their ranges.

## Where the code does not do what one would expect

Each of these is stated as a lemma with a concrete input or with the exact condition.

- After a diagonal step to the south the shifted walk cache is right only under a condition on the
  two edge rows: the distance in y is an absolute value (src/position.h:71-73), so the branch that
  would shorten the range from below (src/creature.cpp:561-565) is never taken and row 0 is skipped
  instead of the last row (`WalkCache.Creature.OnCreatureMove`, `WalkCache.SouthDiagonalFails`).
- An add to an explicit slot with auto-stacking switched off counts the room in stacks that it then
  does not use. If the container is full and the child at the slot takes nothing, the container
  overflows (`ItemMoves.InternalAddItem`, `ItemMoves.SlotMayOverflow`); `ItemMoves.OverflowsExactly`
  says in terms of the arguments which adds do;
  if it is full and the child takes a part, the rest is lost, although the answer is no error
  (`ItemMoves.LostExactly`, `ItemMoves.SlotMayLose`). The lost count is reported in `remainderCount`,
  which the overload without that parameter drops (src/game.cpp:1239-1244).
- Change is exact only when there is a coin of worth one (`Money.ChangeIsExact`).
- An OTB file whose root has neither properties nor children is refused for its length
  (`OtbLoader.BareRootRefused`).
- A blank custom attribute can be written but not read (`ItemCodec.ReadableIsSavable`).
- The worker of the database tasks may go to sleep after the last wake-up of `shutdown`
  (`TaskQueue.WorkerMayMissShutdown`), also when `stop` was called before, as when the server goes
  down (src/game.cpp:139). For a queue that is terminated at that wake-up this can happen exactly
  when it finds the worker between its test of the state and its look at the queue; for one that a
  `stop` has set to closing again, and with further calls of `stop`,
  `TaskQueue.MissesShutdownExactly` has the exact condition as well.
- A damage condition comes back with the sum of its intervals as its duration, so it is unchanged
  exactly when its duration was that sum; attributes given as percentages come back as fixed
  numbers, and drunkenness comes back as 25 (`ConditionCodec.RestoredIsSame`,
  `ConditionCodec.DamageIsSame`). A decay state TRUE comes back as PENDING
  (`ItemCodec.DecayExactly`).

## Model

| member | source | states |
|---|---|---|
| `ItemForest.Item.UpdateItemWeight` | src/container.cpp:116-122 | One change of weight, pushed up the parent chain, makes every cached weight true again wherever it was off by that change, shifts exactly the totals on the way up, and ends because the chain has no cycle |
| `ItemForest.Item.GetThingIndex` | src/container.cpp:557-567 | The first position of a child, or -1 exactly when it is not one |
| `ItemForest.Item.Adopt` | src/container.cpp:653-663 | Linking a loose item below a container that does not lie in it keeps parents, children and ancestor paths consistent, and unbalances no other container |
| `ItemForest.Item.Link` | src/container.cpp:653-663 | The same without weights: the paths of the item and of all it holds are prolonged |
| `ItemForest.Item.Disown` | src/container.cpp:522-555 | Unlinking a child does so too, and leaves the child loose |
| `ItemForest.Item.Unlink` | src/container.cpp:522-555 | The same without weights: the paths of the item and of all it holds are cut off |
| `ItemForest.Item.InternalAddThing` | src/container.cpp:653-663 | The item becomes the first child, and every cached weight of the forest is true afterwards |
| `ItemForest.Item.AddThing` | src/container.cpp:443-462 | The same below the capacity; an index at or above it changes nothing |
| `ItemForest.Item.AddItemBack` | src/container.cpp:464-473 | The item becomes the last child, with true weights |
| `ItemForest.Item.UpdateThing` | src/container.cpp:475-496 | A child takes a new id and subtype in place, with the attributes that setting an id leaves, and all ancestors weigh the difference; anything but a child is left alone |
| `ItemForest.Item.Shrink` | src/container.cpp:522-555 | A smaller stack stays in place, the difference is taken off all ancestors |
| `ItemForest.Item.TakeOut` | src/container.cpp:522-555 | The child is unlinked and its whole weight taken off all ancestors |
| `ItemForest.Item.RemoveThing` | src/container.cpp:522-555 | A stack with another count shrinks, anything else leaves; what is not a child changes nothing; weights stay true |
| `ItemForest.Item.Exchange` | src/container.cpp:498-520 | One child takes the place of another, which becomes loose |
| `ItemForest.Item.ReplaceThing` | src/container.cpp:498-520 | The same with all ancestor weights adjusted by the difference; an index beyond the children changes nothing |
| `ItemForest.ForestAfterInsert` | src/container.cpp:653-663 | After an insert and the push of its weight every container of the forest weighs its children |
| `ItemForest.LinkageAfterAttach` | src/container.cpp:653-663 | Attaching an item off its own path keeps every ancestor path finite and right |
| `ItemForest.LinkageAfterDetach` | src/container.cpp:522-555 | So does detaching one |
| `ItemForest.TotalBumped` | src/container.cpp:116-122 | One step up the chain settles a container and unsettles only its parent |
| `ItemForest.OneWeightChanged` | src/container.cpp:116-122 | A changed weight unbalances the item's own parent and no other container |
| `ItemForest.BalancedAfterChange` | src/container.cpp:475-496 | A container balances again once a child's change of weight is counted |
| `ItemForest.BalancedAfterReplace` | src/container.cpp:498-520 | The same for a child that was replaced |
| `ItemForest.BalancedAfterRemove` | src/container.cpp:522-555 | The same for a child that left |
| `ItemForest.PathIsParentChain` | src/container.cpp:116-122 | The ghost path of an item is its chain of parents, inside the forest, up to a root |
| `ItemForest.PathIsSuffix` | src/container.cpp:116-122 | The chain of an ancestor ends the chain of its descendants |
| `ItemForest.NoParentCycle` | src/container.cpp:116-122 | No item occurs twice on a chain of parents, whose length is at most the number of items |
| `ItemForest.CachedWeightIsDeep` | src/container.cpp:116-127 | In every forest the cached weight of an item is its own weight plus everything it holds at any depth |
| `ItemMoves.QueryAdd` | src/container.cpp:236-288 | The verdict on an add, error by error: not pickupable, an item into itself or into anything it holds, and a full container for the wildcard index only |
| `ItemMoves.CountRoom` | src/container.cpp:290-339 | The room in the stacks of a container is the sum over all of them |
| `ItemMoves.QueryMaxCount` | src/container.cpp:290-339 | How much a container takes: a hundred per free slot and the room of the stacks concerned; no error exactly when that covers the count |
| `ItemMoves.FirstRoom` | src/container.cpp:423-432 | The first stack that can take more of an item, or none |
| `ItemMoves.QueryDestination` | src/container.cpp:369-436 | 254 goes up if there is a parent, an index whose child is a container goes into that child, everything else stays; a stack that may be joined goes to the child asked for if that has room and otherwise to the first that has, anything else to the slot asked for |
| `ItemMoves.ChosenIs` | src/container.cpp:369-436 | The same of the specification, in terms of the index and of the room in each child |
| `ItemMoves.ResolveDestination` | src/game.cpp:1056-1067 | The loop over destinations ends after one step up or down, at a container that names itself as the destination |
| `ItemMoves.GoalIs` | src/game.cpp:1056-1067 | Where a move ends up, in terms of the index: the parent, the child container, or the container itself |
| `ItemMoves.QueryRemove` | src/container.cpp:341-367 | The verdict on a removal, error by error |
| `ItemMoves.OnPath` | src/game.cpp:1143-1157 | The walk past a traded item finds it exactly when it is the destination or above it |
| `ItemMoves.AllowedFits` | src/game.cpp:1075-1135 | What the two queries allow fits: into the stack at the slot, or into a free slot below the capacity |
| `ItemMoves.CheckMove` | src/game.cpp:1075-1157 | All checks at the destination together give one answer and the number of units to move |
| `ItemMoves.PlanMove` | src/game.cpp:1056-1157 | The checks of a move change nothing and agree with `MoveOutcome` |
| `ItemMoves.ShrinkStack` | src/container.cpp:522-555 | Taking part of a stack changes the content of its container in one place and no other content |
| `ItemMoves.TakeWhole` | src/container.cpp:522-555 | Taking a whole child removes one stack from the content of its container |
| `ItemMoves.GrowStack` | src/container.cpp:475-496 | Growing a stack to at most a hundred changes one stack of the content |
| `ItemMoves.PutInto` | src/container.cpp:443-462 | A loose item becomes the first stack of the content, within the capacity |
| `ItemMoves.CloneStack` | src/item.cpp:177-189 | A copy of a stack is loose, alike, and has the count asked for |
| `ItemMoves.GiveUp` | src/game.cpp:1159-1162 | The source content is `Shrunken`, children behind a vanished stack move up by one, and the stack is smaller or loose |
| `ItemMoves.Merge` | src/game.cpp:1164-1173 | The stack at the slot takes what it can, and exactly that; nothing else changes |
| `ItemMoves.AddCopy` | src/game.cpp:1175-1192 | The rest becomes a new first stack |
| `ItemMoves.Receive` | src/game.cpp:1164-1192 | The destination content is `Grown`: filled up at the slot, the rest in front |
| `ItemMoves.MoveStack` | src/game.cpp:1159-1192 | Both contents after a move of units are determined, also when source and destination are the same container, and so are both stacks; no other item moves or changes |
| `ItemMoves.MoveWhole` | src/game.cpp:1159-1192 | Any other child is rehung as the first child of the destination, unchanged |
| `ItemMoves.CommitMove` | src/game.cpp:1159-1192 | The effect of an allowed move on every content of the forest |
| `ItemMoves.InternalMoveItem` | src/game.cpp:1044-1237 | For every forest with stacks of 1 to 100 and item types that are not both stackable and fluid, and every argument without FLAG_NOLIMIT and FLAG_CHILDISOWNER: the answer and the units moved are `MoveOutcome`, the contents are exactly as above, weights stay true, stacks stay between 1 and 100, and no container grows beyond its capacity, even where others are over-full already; the destination is the container that the index names; a whole item is its first child then, of a stack exactly the units moved are gone and the stack there has grown by what fits, and no other item moves or changes |
| `ItemMoves.AnswerMeans` | src/game.cpp:1044-1237 | No error means that everything asked for arrived, unless the item was dropped onto itself; an error means that nothing moved, unless a part of a stack found room |
| `ItemMoves.RefusalMeans` | src/game.cpp:1069-1140 | What each error of a move means at the destination, at the source and for a trade |
| `ItemMoves.StackMovesInFull` | src/game.cpp:1044-1237 | A part of a stack arrives in full if and only if the destination is open and has the space, the source has the units and lets them go, and no traded item is in the way |
| `ItemMoves.StackMovesInPart` | src/game.cpp:1044-1237 | A part of it is moved if and only if the space is all that lacks, and then as much as there is space for |
| `ItemMoves.ItemMovesInFull` | src/game.cpp:1044-1237 | Any other item is moved if and only if the same holds for one free slot |
| `ItemMoves.NothingMoved` | src/game.cpp:1070-1072 | Doing nothing is a move of no units, which lets no container grow |
| `ItemMoves.MoveConservesTotals` | src/game.cpp:1159-1192 | A move conserves the number of every item type over any list of containers with both ends in it |
| `ItemMoves.PlanAdd` | src/game.cpp:1246-1276 | The checks of an add change nothing; when they pass, either the child found joins the item, with room in stacks for all of it unless auto-stacking is off, or a slot within the capacity was named or found |
| `ItemMoves.StackIsAdded` | src/game.cpp:1246-1276 | A loose stack can be added anywhere in a container if and only if free slots and stacks (without auto-stacking: a free slot) have space for all of it and the container does not lie in it |
| `ItemMoves.AddIsAnswered` | src/game.cpp:1246-1276 | Any item is added, at any index, if and only if the container that the index names is open for it and the container asked has the space |
| `ItemMoves.AddRefusalMeans` | src/game.cpp:1246-1276 | What each error of an add means |
| `ItemMoves.OverflowsExactly` | src/game.cpp:1246-1276 | An add is answered with no error although the destination is full and the child there takes nothing, if and only if it is one of a pickupable stack without auto-stacking to a slot of its own choice in a full container that does not lie in it, whose stacks have room for all of it while the child at the slot takes nothing |
| `ItemMoves.LostExactly` | src/game.cpp:1278-1292 | Something is lost in an add if and only if auto-stacking is off, the destination is full, and the child found is alike and cannot take all; then exactly what it cannot take is lost |
| `ItemMoves.SlotMayOverflow` | src/game.cpp:1265-1272 | A concrete add to a full container of two, over a child of another kind, that is answered with no error and leaves three |
| `ItemMoves.SlotMayLose` | src/game.cpp:1265-1292 | A concrete add of 50 to a full container with stacks of 80 and 30, over the first, that is answered with no error and loses 30 |
| `ItemMoves.NoRoomLeft` | src/container.cpp:423-432 | When no stack is found with room, there is none |
| `ItemMoves.RoomForCopy` | src/game.cpp:1285-1292 | A copy of a stack finds the same room as the stack |
| `ItemMoves.RoomUsedUp` | src/game.cpp:1279-1283 | Filling up a stack uses up exactly its room |
| `ItemMoves.StillCanTake` | src/game.cpp:1279-1292 | After one stack is filled up the container can still take the rest |
| `ItemMoves.RestFits` | src/game.cpp:1279-1292 | So with auto-stacking there is always a place for the remainder |
| `ItemMoves.RemainderOutcome` | src/game.cpp:1285-1292 | The nested add of a remainder is refused if and only if auto-stacking is off and the container is full; otherwise it stows the remainder |
| `ItemMoves.FillStack` | src/game.cpp:1278-1284 | The stack found takes what it can, up to its full size; what is left is the remainder of the specification, and what is lost of it too |
| `ItemMoves.AddRemainder` | src/game.cpp:1285-1292 | The nested add of a strictly smaller remainder stows all of it and reports none left, but for a full container without auto-stacking: then nothing changes and all of it is reported |
| `ItemMoves.AddRest` | src/game.cpp:1284-1318 | What remains is stowed as a smaller stack, is lost, or takes a slot as it is: then the item itself is the first child, with all it holds; only the last lets a full container grow |
| `ItemMoves.AddToStack` | src/game.cpp:1278-1310 | Adding to a stack gives the content `Added` and the remainder `Lost`; the item stays loose exactly if the stack took some of it |
| `ItemMoves.CommitAdd` | src/game.cpp:1278-1318 | Adding gives the content `Added` and the remainder `Lost`, whatever was found at the slot; if a stack there took some of the item, this has grown up to its full size and the item stays loose, and otherwise the item itself, with all it holds, is the first child and nothing was copied |
| `ItemMoves.InternalAddItem` | src/game.cpp:1246-1327 | For every forest, every loose item and every argument without FLAG_NOLIMIT and FLAG_CHILDISOWNER: the answer is `AddOutcome`; with no error the content of the destination is `Added`, no other item moves or changes and the remainder is `Lost`; with an error or in a test nothing changes; the destination grows beyond its capacity if and only if the arguments are those of `Overflows`; weights and stack sizes stay in order, and the recursion ends; where the item itself is then is as in `CommitAdd` |
| `ItemMoves.AddedIsStowed` | src/game.cpp:1246-1327 | Adding a stack anywhere fills the stacks with room one after the other, puts the rest in front and loses nothing |
| `ItemMoves.FilledCounts` | src/game.cpp:1279-1283 | Filling up a stack adds what it takes and nothing else |
| `ItemMoves.StowedCounts` | src/game.cpp:1278-1310 | Stowing adds exactly the units of the item type, in one new stack at most |
| `ItemMoves.AddedCounts` | src/game.cpp:1278-1318 | An add adds exactly the count of the item to its type, less what is lost, in one new slot at most |
| `PropStreams.LittleEndianInverse` | src/fileloader.h:146-150 | The bytes of a number, read back, give it modulo its width |
| `PropStreams.SignedRoundTrip` | src/fileloader.h:84-93 | A signed number survives exactly when it fits its width |
| `PropStreams.UnsignedRoundTrip` | src/fileloader.h:84-93 | An unsigned number survives exactly when it fits its width |
| `PropStreams.NumberRoundTrip` | src/fileloader.h:84-93 | Reading a written number stops right behind it, whatever follows |
| `PropStreams.StringRoundTrip` | src/fileloader.h:95-112 | A written string is read back, or as empty when longer than 65535 bytes, whatever follows |
| `PropStreams.PropWriteStream.Clear` | src/fileloader.h:142-144 | Nothing is left |
| `PropStreams.PropWriteStream.Write` | src/fileloader.h:146-150 | Appends the bytes of the number |
| `PropStreams.PropWriteStream.WriteString` | src/fileloader.h:152-161 | Appends the length and the bytes, or a zero length |
| `PropStreams.PropStream.Read` | src/fileloader.h:84-93 | Succeeds exactly when there are enough bytes, agrees with `ReadNumber`, and moves nothing on failure |
| `PropStreams.PropStream.ReadStringValue` | src/fileloader.h:95-112 | Agrees with `ReadString` |
| `PropStreams.PropStream.Skip` | src/fileloader.h:114-121 | Skips exactly when there are enough bytes |
| `ItemCodec.ValueRoundTrip` | src/item.h:284-338 | Every custom value but a blank one is read back as `StorableValue`, whatever follows |
| `ItemCodec.BlankEntryRefused` | src/item.h:331-335 | A blank value makes the reader of the custom attributes fail |
| `ItemCodec.EntriesRoundTrip` | src/item.cpp:812-824 | A list of custom attributes without blanks is read back entry by entry |
| `ItemCodec.NumberAttributeRoundTrip` | src/item.cpp:371-674 | Reading a written numeric attribute has the effect `WithAttribute` |
| `ItemCodec.TextAttributeRoundTrip` | src/item.cpp:371-674 | The same for a string |
| `ItemCodec.CustomAttributeRoundTrip` | src/item.cpp:371-674 | The same for the custom attributes |
| `ItemCodec.AttributeRoundTrip` | src/item.cpp:371-674 | The same for any attribute |
| `ItemCodec.AttributeListRoundTrip` | src/item.cpp:676-688 | A list of attributes is read back one by one, whatever follows |
| `ItemCodec.WithAttributesAppend` | src/item.cpp:676-688 | Writing and reading go through two lists as through one |
| `ItemCodec.AttributesEffect` | src/item.cpp:695-824 | Reading back all attributes that an item writes leaves `Reloaded` |
| `ItemCodec.AttributesWellFormed` | src/item.cpp:695-824 | Everything an item without blanks writes can be read back |
| `ItemCodec.AttributesRoundTrip` | src/item.cpp:676-824 | For every item without blank custom values: reading back what was written gives `Reloaded`, whatever follows |
| `ItemCodec.ReadableIsSavable` | src/item.cpp:676-824 | The written attributes can be read back up to the end if and only if no custom value is blank |
| `ItemCodec.CustomIsLast` | src/item.cpp:812-824 | The custom attributes are written last |
| `ItemCodec.FreshItem` | src/item.cpp:102-143 | A created item has its normal id and only the attributes of its constructor |
| `ItemCodec.NormalIdIs` | src/item.cpp:70-82 | Which ids are created as another type, and that this is final |
| `ItemCodec.SubTypeExactly` | src/item.cpp:331-369 | When count, fluid type and charges survive, in terms of the item type |
| `ItemCodec.CountedOutcome` | src/item.cpp:331-369 | What a stack or a fluid is read back with |
| `ItemCodec.UncountedOutcome` | src/item.cpp:331-369 | What any other item is read back with |
| `ItemCodec.ActionIdExactly` | src/item.cpp:371-674 | An action id survives exactly when the item is moveable and it lies between 100 and 65535 |
| `ItemCodec.WritingExactly` | src/item.cpp:371-674 | When text, date, writer and description survive |
| `ItemCodec.DecayExactly` | src/item.cpp:371-674 | A decay state survives exactly when it is PENDING, a duration exactly when it is not negative and fits |
| `ItemCodec.CustomExactly` | src/item.cpp:371-674 | Custom attributes survive exactly with distinct lower-case keys and values within their widths |
| `ItemCodec.ValueExact` | src/item.h:284-338 | Which custom values survive |
| `ItemCodec.StorableIsExact` | src/item.h:284-338 | What is read back survives from then on |
| `ItemCodec.ReloadedParts` | src/item.cpp:371-674 | Each group of attributes is read back independently of the others |
| `ItemCodec.ReloadedIsExact` | src/item.cpp:40-824 | An item of known type is restored unchanged if and only if it is `Exact`, a condition on its fields |
| `ItemCodec.Lower` | src/item.h:460-468 | Keys are lower-cased letter by letter |
| `ItemCodec.WithoutKey` | src/item.h:490-505 | Removing a key removes that key and nothing else |
| `ItemCodec.SerializeValue` | src/item.h:284-287 | The method writes `ValueBytes` |
| `ItemCodec.UnserializeValue` | src/item.h:289-338 | The method agrees with `ReadValue` |
| `ItemCodec.WriteSubType` | src/item.cpp:697-714 | The first group of writes is `SubTypeAttributes` |
| `ItemCodec.WriteWriting` | src/item.cpp:717-739 | The second is `WritingAttributes` |
| `ItemCodec.WriteDecay` | src/item.cpp:741-750 | The third is `DecayAttributes` |
| `ItemCodec.WriteNames` | src/item.cpp:752-765 | The fourth is `NameAttributes` |
| `ItemCodec.WriteCombat` | src/item.cpp:767-790 | The fifth is `CombatAttributes` |
| `ItemCodec.WriteLast` | src/item.cpp:792-824 | The last is `LastAttributes` |
| `ItemCodec.WriteCustom` | src/item.cpp:812-824 | The custom attributes, with their number in 64 bits |
| `ItemCodec.WriteEntries` | src/item.cpp:812-824 | The loop over the custom attributes |
| `ItemCodec.SerializeAttr` | src/item.cpp:695-824 | The method appends `Serialized` |
| `ItemCodec.UnserializeEntries` | src/item.cpp:643-666 | The loop over custom attributes agrees with `ReadEntries` |
| `ItemCodec.UnserializeAttr` | src/item.cpp:371-688 | The method agrees with `ReadAttributes` on every input, in success and failure, and stops where it stops |
| `MapItemCodec.SavedItemLoads` | src/iomapserialize.cpp:134-235 | For every tree of items: reading what was written gives its persisted view, children in order, and stops exactly at what follows |
| `MapItemCodec.SavedKidsLoad` | src/iomapserialize.cpp:116-132 | Children written last to first and pushed to the front come back in order |
| `MapItemCodec.HeadLoads` | src/iomapserialize.cpp:217-225 | Id and attributes are read back up to what follows them |
| `MapItemCodec.CountLoads` | src/container.cpp:71-80 | The number of children ends the attributes of a container |
| `MapItemCodec.ReloadedKids` | src/iomapserialize.cpp:116-132 | The persisted view keeps the children in order |
| `MapItemCodec.ReloadedTreeIsExact` | src/iomapserialize.cpp:116-235 | A tree comes back unchanged if and only if each of its items does |
| `MapItemCodec.ReadAttributesShrinks` | src/item.cpp:676-688 | Reading attributes never goes back, so nested reading ends |
| `MapItemCodec.LoadedItem` | src/iomapserialize.cpp:134-215 | Reading an item consumes at least a byte on any input |
| `MapItemCodec.LoadedKids` | src/iomapserialize.cpp:116-132 | Reading children never goes back on any input |
| `MapItemCodec.SaveItem` | src/iomapserialize.cpp:217-235 | The method appends `SavedItem` |
| `MapItemCodec.SaveKids` | src/iomapserialize.cpp:217-235 | The children are written from the last to the first |
| `MapItemCodec.LoadItem` | src/iomapserialize.cpp:134-215 | The method agrees with `LoadedItem` on every input |
| `MapItemCodec.LoadContainer` | src/iomapserialize.cpp:116-132 | The method agrees with `LoadedKids` on every input |
| `RowCodec.FlattenedShape` | src/iologindata.cpp:511-566 | In the rows of any forest sids count up from the first one, every pid is that of a carrier or an earlier sid, and the children of a row are one stretch of rows |
| `RowCodec.FlattenedStep` | src/iologindata.cpp:511-566 | The first row belongs to the first item waiting; its children queue up behind the others |
| `RowCodec.TreesOfFlattened` | src/iologindata.cpp:405-429 | The tree below each row of a written forest is the persisted view of its item |
| `RowCodec.RowItemRoundTrip` | src/iologindata.cpp:853-877 | One row restores the persisted view of one item |
| `RowCodec.RowItemIsExact` | src/iologindata.cpp:853-877 | One item survives its row unchanged if and only if it is `Exact` |
| `RowCodec.RowRoundTrip` | src/iologindata.cpp:405-566 | For every forest below carriers of pid less than 101: writing and rebuilding gives the persisted view of every tree, on its own carrier, in the same order at every level |
| `RowCodec.RowViewIsExact` | src/iologindata.cpp:405-566 | A tree survives its rows unchanged if and only if each of its items does |
| `RowCodec.RowViews` | src/iologindata.cpp:405-429 | The persisted view keeps the children in order |
| `RowCodec.SelectRange` | src/iologindata.cpp:411-428 | The children of a row are the rows that name its sid, in order |
| `RowCodec.RootsPrefix` | src/iologindata.cpp:411-428 | The items of carriers are the first rows |
| `RowCodec.TreeOfRow` | src/iologindata.cpp:411-428 | The tree of a row holds the trees of all rows that name its sid, wherever they are |
| `RowCodec.SaveRow` | src/iologindata.cpp:523-533 | The reused stream holds the attributes of this item only |
| `RowCodec.SaveRoots` | src/iologindata.cpp:517-538 | After the first loop the containers noted are what is still to be written |
| `RowCodec.SaveChildren` | src/iologindata.cpp:540-563 | The children of one container are written and its containers noted behind the others |
| `RowCodec.SaveItems` | src/iologindata.cpp:511-566 | The method over a list of containers that it extends writes `Flattened`, and ends |
| `RowCodec.LoadRow` | src/iologindata.cpp:853-877 | One row becomes one item, also when its attributes fail to parse |
| `RowCodec.CreateItems` | src/iologindata.cpp:853-877 | Every row becomes one loose object under its sid |
| `RowCodec.AttachItem` | src/iologindata.cpp:417-427 | One object is pushed to the front of the container of its row, or dropped when there is none, with true weights throughout |
| `RowCodec.AttachItems` | src/iologindata.cpp:411-428 | After the loop every container holds exactly the objects of the rows that name it, in order of sid, and every cached weight is true |
| `RowCodec.RowRepresents` | src/iologindata.cpp:411-428 | Once every row is in place each object is the tree of its row |
| `RowCodec.RowBuilt` | src/iologindata.cpp:411-428 | After both loops each object has the fields of its row, and holds the objects of the rows that name it |
| `RowCodec.LoadForest` | src/iologindata.cpp:405-429 | For any rows with pids below their sids: the objects under the carriers are the trees that the rows describe, and every cached weight is the true sum |
| `ConditionCodec.ReadFields` | src/condition.cpp:73-141 | Reading attributes never goes back on any input |
| `ConditionCodec.ReadHeader` | src/condition.cpp:235-293 | Reading a header consumes bytes on any input |
| `ConditionCodec.WithField` | src/condition.cpp:84-141 | An attribute never changes the class of a condition |
| `ConditionCodec.IdBack` | src/condition.cpp:143-162 | An id is written in 32 bits and read back through one byte with its sign |
| `ConditionCodec.IntervalBack` | src/condition.h:65-69 | An interval entry is read back field by field |
| `ConditionCodec.FieldsBack` | src/condition.cpp:73-82 | Written attributes are applied one by one up to the end marker, whatever follows |
| `ConditionCodec.HeaderBack` | src/condition.cpp:235-293 | A written header creates the condition of its class with its six header values |
| `ConditionCodec.RegenerationBack` | src/condition.cpp:853-882 | Regeneration is read back |
| `ConditionCodec.SoulBack` | src/condition.cpp:1015-1034 | Soul regeneration is read back |
| `ConditionCodec.SpeedBack` | src/condition.cpp:1550-1584 | Speed is read back |
| `ConditionCodec.LightBack` | src/condition.cpp:1822-1866 | Light is read back |
| `ConditionCodec.OutfitBack` | src/condition.cpp:1687-1701 | An outfit is read back |
| `ConditionCodec.RoundsBack` | src/condition.cpp:1166-1193 | Damage rounds are appended one by one, each prolonging the condition |
| `ConditionCodec.DamageBack` | src/condition.cpp:1166-1209 | Damage is read back round by round with its duration worked out anew |
| `ConditionCodec.ArrayBack` | src/condition.cpp:406-418 | The values of an array of attributes are read back one after the other behind those already read |
| `ConditionCodec.AttributesBack` | src/condition.cpp:406-441 | Skills, stats and special skills are read back into their arrays, without the percentages |
| `ConditionCodec.WithFieldsJoined` | src/condition.cpp:73-82 | Reading goes through two lists of attributes as through one |
| `ConditionCodec.DetailBack` | src/condition.cpp:84-162 | Every class is read back |
| `ConditionCodec.ConditionRoundTrip` | src/condition.cpp:73-293 | For every condition of any class within its widths: it is read back as `Restored`, and reading stops right behind its end marker |
| `ConditionCodec.ListRoundTrip` | src/iologindata.cpp:262-275 | For every list of conditions: reading the stream that was written gives the restored persistent ones in reverse order, in front of what was there |
| `ConditionCodec.SurvivesExactly` | src/condition.cpp:303-314 | Which conditions survive a stream: those with an end that are a player's own, of combat, or being muted |
| `ConditionCodec.BrokenIsSkipped` | src/iologindata.cpp:267-275 | A condition that breaks off at an unknown code is dropped, and what follows is read |
| `ConditionCodec.RoundsAreSum` | src/condition.cpp:1166-1193 | Without overflow the rounds give the sum of their intervals |
| `ConditionCodec.RestoredIsSame` | src/condition.cpp:1166-1209 | A condition comes back unchanged if and only if its ticks, for damage, are what its rounds give, its percentages, for attributes, are all zero, and its drunkenness, for that class, is 25; after one reload it always does |
| `ConditionCodec.DamageIsSame` | src/condition.cpp:1166-1209 | Without overflow a damage condition comes back unchanged if and only if its ticks are the sum of its intervals |
| `ConditionCodec.RestoredListIsSame` | src/iologindata.cpp:262-275 | The restored list is the reversed one if and only if each persistent condition comes back unchanged |
| `ConditionCodec.ListIsSame` | src/iologindata.cpp:262-275 | The stream gives back the persistent conditions unchanged, in reverse order, if and only if each of them comes back unchanged |
| `ConditionCodec.Put` | src/condition.cpp:143-162 | One attribute: code, then number |
| `ConditionCodec.PutInterval` | src/condition.cpp:1195-1209 | One damage round |
| `ConditionCodec.SerializeHeader` | src/condition.cpp:143-162 | The method appends the header attributes |
| `ConditionCodec.SerializeDamage` | src/condition.cpp:1195-1209 | The method appends the damage attributes |
| `ConditionCodec.PutArray` | src/condition.cpp:424-427 | One array of attributes, value by value |
| `ConditionCodec.SerializeAttributes` | src/condition.cpp:420-441 | The method appends the three arrays and the flag |
| `ConditionCodec.SerializeDetail` | src/condition.cpp:867-1866 | The method appends the attributes of the class |
| `ConditionCodec.SaveCondition` | src/iologindata.cpp:585-592 | A condition and its end marker |
| `ConditionCodec.SaveConditions` | src/iologindata.cpp:585-592 | The loop writes `SavedList` |
| `ConditionCodec.Unserialize` | src/condition.cpp:73-82 | The method agrees with `ReadFields` on every input |
| `ConditionCodec.ReadAttribute` | src/condition.cpp:235-293 | One header attribute, whose code must come next |
| `ConditionCodec.CreateCondition` | src/condition.cpp:235-293 | The method agrees with `ReadHeader` on every input |
| `ConditionCodec.LoadConditions` | src/iologindata.cpp:262-275 | The loop agrees with `LoadedList` on every input |
| `OtbLoader.Body` | src/fileloader.cpp:63-98 | A node ends behind its start and inside the file |
| `OtbLoader.StartChild` | src/fileloader.cpp:65-79 | The stack stays the rightmost path: the new child is on top, and the parent's properties end at its first child |
| `OtbLoader.AddChild` | src/fileloader.cpp:66-77 | The new last child is open and linked to its parent only |
| `OtbLoader.EndNode` | src/fileloader.cpp:80-87 | The closed node has its property range and leaves the stack; the one below has one child more |
| `OtbLoader.StartStep` | src/fileloader.cpp:65-79 | After START the file that is read is still the resumed grammar |
| `OtbLoader.EndStep` | src/fileloader.cpp:80-87 | After END too, or the rest of the file decides when it was the root |
| `OtbLoader.UnderwaySkip` | src/fileloader.cpp:88-96 | After any other byte too; an escape at the end of the file makes the grammar refuse it |
| `OtbLoader.UnderwayNone` | src/fileloader.cpp:63-104 | Wherever the loop gives up the grammar refuses the file, and at the end of the file it accepts exactly with no node open |
| `OtbLoader.Close` | src/fileloader.cpp:80-84 | A closed node is the parsed node of the grammar |
| `OtbLoader.ResumedSkip` | src/fileloader.cpp:88-96 | The grammar, resumed in the middle of open nodes, passes over plain and escaped bytes |
| `OtbLoader.ResumedStart` | src/fileloader.cpp:65-79 | ... opens a child at START |
| `OtbLoader.ResumedEnd` | src/fileloader.cpp:80-87 | ... and closes a node at END |
| `OtbLoader.Loader.ParseTree` | src/fileloader.cpp:52-104 | On every input the loop accepts exactly what the recursive grammar accepts and builds its tree; refused files are the exception |
| `OtbLoader.Loader.GetProps` | src/fileloader.cpp:106-121 | The properties without escapes; false exactly when the range is empty |
| `OtbLoader.OpenFile` | src/fileloader.cpp:29-42 | A file is taken exactly when it is long enough and carries the identifier or the wildcard |
| `OtbLoader.EscapeRoundTrip` | src/fileloader.cpp:106-121 | Escaped properties are well escaped and come back, for all bytes |
| `OtbLoader.BodyIsSound` | src/fileloader.cpp:63-98 | Every node read to its end has a property range without a dangling escape |
| `OtbLoader.TreeIsSound` | src/fileloader.cpp:52-104 | So has every node of every accepted file |
| `OtbLoader.PropsPassed` | src/fileloader.cpp:88-96 | Escaped properties are passed over as a whole |
| `OtbLoader.KidsParsed` | src/fileloader.cpp:63-98 | The children still to be read are appended to those already there |
| `OtbLoader.EncodedParses` | src/fileloader.cpp:63-98 | Every encoded node, anywhere in a file, is read as a node that stands for it, up to its end |
| `OtbLoader.FileRoundTrip` | src/fileloader.cpp:52-104 | For every tree with any property bytes: an encoded file that is long enough is accepted if and only if what follows the tree is `Trailing`, and then the parsed tree stands for the tree |
| `OtbLoader.BareRootRefused` | src/fileloader.cpp:29-42 | The length check refuses, of all encoded trees, exactly the root without properties and children |
| `OtbLoader.PropsRoundTrip` | src/fileloader.cpp:106-121 | `getProps` on a parsed node returns the original property bytes |
| `ContainerIteration.FirstVisited` | src/container.cpp:687-705 | A visited item is not reached again, everything else still is |
| `ContainerIteration.NextIsAntichain` | src/container.cpp:687-705 | No item of the frontier lies in another, after every step |
| `ContainerIteration.EachVisitedOnce` | src/container.cpp:672-705 | Everything below a frontier is visited exactly once, and nothing else |
| `ContainerIteration.LayerFirst` | src/container.cpp:687-705 | A layer is visited in order before its children |
| `ContainerIteration.LevelByLevel` | src/container.cpp:672-705 | The visits come level by level |
| `ContainerIteration.ChildrenReachAll` | src/container.cpp:672-680 | The children of a container reach exactly what it holds at any depth |
| `ContainerIteration.EverythingHeldIsVisited` | src/container.cpp:672-705 | A run over any container visits everything it holds exactly once |
| `ContainerIteration.ThroughChild` | src/container.cpp:178-186 | Lying in a container is lying in or being one of its children |
| `ContainerIteration.ContainerIterator.Frontier` | src/container.cpp:672-705 | What is known but not yet visited; empty when the queue is |
| `ContainerIteration.ContainerIterator.Current` | src/container.cpp:682-685 | The current item is the first of the frontier |
| `ContainerIteration.ContainerIterator.Advance` | src/container.cpp:687-705 | The frontier loses its first item and gains what that holds; no empty container is ever queued |
| `ContainerIteration.ContainerIterator.MoveOn` | src/container.cpp:687-697 | The current item is queued if it holds anything, and the position moves on |
| `ContainerIteration.ContainerIterator.DropFirst` | src/container.cpp:698-704 | An exhausted container leaves the queue |
| `ContainerIteration.Iterator` | src/container.cpp:672-680 | A new iterator has the children as its frontier |
| `ContainerIteration.Visit` | src/container.cpp:169-186 | One turn of a loop visits one item, which is not reached again |
| `ContainerIteration.GetItemHoldingCount` | src/container.cpp:169-176 | Counts everything held at any depth |
| `ContainerIteration.IsHoldingItem` | src/container.cpp:178-186 | True exactly for what is held at any depth |
| `ContainerIteration.VisitAll` | src/container.cpp:672-705 | A whole run ends and visits in the order of `Visits` |
| `Money.ChangeIsExact` | src/game.cpp:1516-1544 | Greedy change pays every amount in full if and only if there is a coin of worth one |
| `Money.UnitCoinPaysAll` | src/game.cpp:1516-1544 | With such a coin nothing is left unpaid |
| `Money.OneIsNotPaid` | src/game.cpp:1516-1544 | Without one the amount 1 is not paid |
| `Money.ChangeIsGreedy` | src/game.cpp:1516-1544 | The coins handed out of one currency are worth less than one coin of the next better one |
| `Money.EmplacedKeeps` | src/game.cpp:1449-1490 | The multimap stays ordered and worth the sum of its entries |
| `Money.EmplacedLast` | src/game.cpp:1466-1486 | An entry is put behind all of its worth |
| `Money.FirstFoundFirst` | src/game.cpp:1466-1511 | Stacks of equal worth are listed, and so spent, in the order in which they are found |
| `Money.EmplacedHas` | src/game.cpp:1449-1490 | It has the new entry and those of before |
| `Money.EmplacedDistinct` | src/game.cpp:1449-1490 | No item is in it twice |
| `Money.OverpaidExactly` | src/game.cpp:1501-1504 | What rounding up to whole coins overpays is determined by what is owed and the worth of one coin |
| `Money.NoneLost` | src/game.cpp:1508-1511 | A whole stack leaves nothing to be changed |
| `Money.RoundedUp` | src/game.cpp:1501-1506 | The coins broken off cover what is owed, by less than one coin, and never exceed the stack |
| `Money.StowedWorth` | src/game.cpp:1278-1310 | Stowing units in a content adds exactly their worth, whatever one of them is worth |
| `Money.WorthGrown` | src/game.cpp:1532-1539 | The worth of a forest changes by what one content changes by, also when items come in that hold nothing |
| `Money.GivenCounts` | src/game.cpp:1516-1544 | By counting the coins of one type, what is given is what greedy change hands out of it |
| `Money.GivenIsPaid` | src/game.cpp:1516-1544 | By their worth, what is given and what is left unpaid make up the amount |
| `Money.InternalRemoveItem` | src/game.cpp:1329-1374 | No error exactly for a child of a container and a count that it has; then exactly that count is gone from wherever the item lies, nothing else moves or changes, and all weights stay true |
| `Money.RemoveFrom` | src/container.cpp:522-555 | The same below a given container, and by any worth the forest has exactly that much less |
| `Money.AddNew` | src/game.cpp:1535-1537 | A new stack is refused exactly if the container has no space for it, and otherwise goes into stacks of its kind and a new one; no other item moves or changes |
| `Money.CoinFits` | src/game.cpp:1535-1537 | A loose stack of coins is added exactly when it fits: in free slots and stacks, or without auto-stacking in a free slot |
| `Money.AddStack` | src/game.cpp:1532-1542 | The stack is in the container if it fits, in terms of free slots and the room in its stacks, and on the ground otherwise |
| `Money.AddCoins` | src/game.cpp:1532-1542 | Coins of one kind in stacks of up to a hundred: exactly so many are there in addition, each stack in the container if it fits when its turn comes |
| `Money.RollsAreFew` | src/game.cpp:1532-1534 | Coins are handed out in as few stacks as can be |
| `Money.AllRollsAreGiven` | src/game.cpp:1516-1544 | Together the stacks are the greedy change, by any worth |
| `Money.SpaceUsed` | src/game.cpp:1535-1540 | Whatever is added leaves no more space than there was, for any coin |
| `Money.RefusedDoesNotFit` | src/game.cpp:1535-1540 | What was refused does not fit in the end either |
| `Money.NothingIsRefused` | src/game.cpp:1535-1540 | With a free slot for every stack nothing is refused |
| `Money.AddMoney` | src/game.cpp:1516-1544 | For every amount and forest: by any worth of the coins exactly what greedy change hands out is in the forest or on the ground in addition, by their own worth the amount less what no coin pays; nothing moves, no stack shrinks, and stacks worth more than the amount per coin stay as they are; each stack is in the container if it fits when its turn comes, what is on the ground does not fit in the end either, and with a free slot for every stack nothing is |
| `Money.CollectMoney` | src/game.cpp:1447-1490 | For every forest: the growing list of containers ends, the map has exactly the money that the container holds at any depth, each item once, in order of worth and, of equal worth, in the order in which they are found, own children first; the sum is all of it |
| `Money.ScanContainer` | src/game.cpp:1447-1490 | One container: its containers are noted behind the others and its money is in the map in addition |
| `Money.WalkStep` | src/game.cpp:1473-1490 | Scanning one container more keeps the list and the map in step with the containers scanned |
| `Money.NextContainer` | src/game.cpp:1473-1477 | The next noted container lies below the carrier and was not scanned before |
| `Money.WalkedIsBelow` | src/game.cpp:1473-1490 | Once all noted containers are scanned, these are all containers below the carrier |
| `Money.AllWalked` | src/game.cpp:1447-1490 | And the map has all the money there is in them |
| `Money.Break` | src/game.cpp:1501-1507 | Change is added before coins are taken off: by any worth, as many coins as cover what is owed are exchanged for greedy change of the part overpaid, what of it does not fit is on the ground, and what no coin pays is lost; nothing but the stack broken moves or shrinks |
| `Money.ChangeOnGround` | src/game.cpp:1501-1540 | Change of a payment is on the ground only if the container has no space for it, and none is with a free slot for every stack |
| `Money.StaysWhole` | src/game.cpp:1501-1507 | The change does not touch the stack that is to be broken |
| `Money.RemoveMoney` | src/game.cpp:1437-1514 | For every forest and container: it succeeds if and only if the container holds enough money, at any depth, and otherwise changes nothing; on success the worth of forest and ground falls by exactly the amount and what greedy change leaves of the part overpaid with the last stack, which is nothing when there is a unit coin; stacks leave from the least valuable on, at most one is broken, nothing else moves or shrinks, and no container outside the carrier changes; by any worth it is known which coins left and which came, and what of the change is on the ground |
| `DecayWheel.DueTickIsVisit` | src/game.cpp:4442-4484 | The closed form of the decay tick is what the buckets give |
| `DecayWheel.Punctual` | src/game.cpp:4442-4484 | For every duration the decay is less than 875 ms early and less than 250 ms late |
| `DecayWheel.Wheel.StartDecay` | src/game.cpp:4408-4426 | An item waits exactly when it can decay, has time left and is not decaying yet; without time left it decays at once |
| `DecayWheel.Wheel.InternalDecayItem` | src/game.cpp:4428-4440 | The item becomes its successor, which waits exactly when it can decay, or is removed |
| `DecayWheel.Wheel.Start` | src/game.cpp:4408-4426 | Starting a decay from outside keeps the wheel in order; which items it enters and which it leaves alone is said in terms of their fields and type |
| `DecayWheel.Wheel.PushBack` | src/game.cpp:4475-4475 | One bucket gains one item with a fixed due tick |
| `DecayWheel.Wheel.Enter` | src/game.cpp:4556-4564 | An item enters a bucket and is due as its duration says |
| `DecayWheel.Wheel.Cleanup` | src/game.cpp:4543-4565 | Every waiting item of duration D enters the wheel and is due `DueTick(D)` ticks later |
| `DecayWheel.Wheel.Erase` | src/game.cpp:4451-4471 | One item leaves the bucket being scanned, the others stay in order |
| `DecayWheel.Wheel.Change` | src/game.cpp:4458-4462 | A shorter duration keeps the due tick |
| `DecayWheel.Wheel.Vanish` | src/game.cpp:4464-4467 | The decay of an erased item leaves all buckets alone |
| `DecayWheel.Wheel.Append` | src/game.cpp:4474-4476 | An item goes on in the next bucket, never in the one being scanned |
| `DecayWheel.Wheel.LastFraction` | src/game.cpp:4468-4476 | With less than a second left an item decays now or one bucket later, as its due tick says |
| `DecayWheel.Wheel.ScanItem` | src/game.cpp:4449-4480 | One scanned item decays if and only if it is due now, and otherwise keeps its due tick |
| `DecayWheel.Wheel.ScanStep` | src/game.cpp:4449-4480 | One turn of the loop leaves all other items as they were |
| `DecayWheel.Wheel.ScanBucket` | src/game.cpp:4448-4480 | The whole scan ends and settles every item of the bucket; the bucket gains nothing meanwhile |
| `DecayWheel.Wheel.BeginTick` | src/game.cpp:4446-4446 | Items of the bucket whose turn it is may be due now, all others are due later |
| `DecayWheel.Wheel.EndTick` | src/game.cpp:4482-4482 | After the scan the wheel is in order for the next tick |
| `DecayWheel.Wheel.Turn` | src/game.cpp:4442-4482 | Of all items in the wheel exactly those due in this tick decay |
| `DecayWheel.Wheel.CheckDecay` | src/game.cpp:4442-4484 | The same for a whole tick: exactly the due items become their successors or are removed, all others keep their due tick, which is still to come |
| `DecayWheel.Wheel.TickUntilDue` | src/game.cpp:4442-4484 | Tick after tick, whatever else is in the wheel: an item decays for the first time in exactly its due tick |
| `TradeProtocol.StartKeeps` | src/game.cpp:2585-2614 | A request keeps the protocol invariant |
| `TradeProtocol.CloseKeeps` | src/game.cpp:2810-2856 | Closing keeps it, and settles both sides of a trade |
| `TradeProtocol.CompleteKeeps` | src/game.cpp:2660-2730 | A completed transfer restores it |
| `TradeProtocol.AcceptKeeps` | src/game.cpp:2616-2730 | Accepting keeps it, whatever the checks on the way decide |
| `TradeProtocol.StepKeeps` | src/game.cpp:2536-2856 | Every step of any player keeps it |
| `TradeProtocol.RunKeeps` | src/game.cpp:2536-2856 | So does every run |
| `TradeProtocol.EveryRun` | src/game.cpp:2536-2856 | After every run from idle players: partners are mutual and distinct, NONE means no partner, offered items are exactly those listed, every pair offers something, and nobody is in transfer |
| `TradeProtocol.OthersUntouched` | src/game.cpp:2585-2856 | A step leaves everybody alone but the player who acts and the partner, old or new |
| `TradeProtocol.AcceptOutcome` | src/game.cpp:2616-2730 | The second acceptance ends the trade for both, the first one only marks the player |
| `TradeProtocol.StartExactly` | src/game.cpp:2585-2614 | When a request takes effect and everything that it changes; otherwise it changes nothing |
| `TradeProtocol.CloseExactly` | src/game.cpp:2810-2856 | A close ends the trade for both and leaves everything else |
| `TradeProtocol.AcceptIgnored` | src/game.cpp:2616-2626 | An acceptance counts only from a player who was asked or has offered something |
| `TradeProtocol.TradeRunsThrough` | src/game.cpp:2585-2730 | From two idle players a request, the offer in return and two acceptances pass through a state with both items listed and both players INITIATED, and end with both idle and nothing listed |
| `TradeProtocol.FewMeans` | src/game.cpp:2572-2576 | A container is traded with at most 99 items in it |
| `TradeProtocol.StepInTransfer` | src/game.cpp:2585-2856 | While a pair is in transfer, what names one of the two does nothing, anything else does what it would do afterwards, and the pair stays in transfer |
| `TradeProtocol.RunInTransfer` | src/game.cpp:2585-2856 | So does any run during a transfer, and finishing it afterwards is as good as finishing it first |
| `TradeProtocol.TransferHidden` | src/game.cpp:2660-2730 | With nothing in between the two halves of a transfer are one step |
| `TradeProtocol.TransferIsAtomic` | src/game.cpp:2660-2730 | Whatever any players do between the two halves of a transfer, it completes as one step and the protocol invariant holds afterwards |
| `TradeProtocol.AcceptedWorld` | src/game.cpp:2616-2632 | At the second acceptance the two are still partners and all others as before |
| `TradeProtocol.StepKeepsApart` | src/game.cpp:2536-2614 | No step that passes the checks brings a traded item into another one |
| `TradedItems.ClosingsExactly` | src/player.cpp:1353-1372 | When any players look on one after the other, a traded item stays listed if and only if none of them notices that the trade is touched, on either side of it |
| `TradedItems.ClosedSame` | src/player.cpp:1353-1372 | Trades closed before do not change who closes the others |
| `TradedItems.SeenExactly` | src/player.cpp:1270-1297 | What is listed after a move is exactly what nobody noticed, when the item left or when it arrived; the protocol invariant is kept |
| `TradedItems.MoveExactly` | src/player.cpp:1270-1372 | For any players who look on: after a move no traded item lies in another one if and only if, of every pair that would meet, one trade is closed by one of them, stated before the move |
| `TradedItems.ArrivalSeen` | src/player.cpp:1270-1273 | It is enough that the offerers of all traded containers at or above the new place look on when the item arrives |
| `TradedItems.DepartureSeen` | src/player.cpp:1286-1351 | Or that the offerers of all traded items in what is moved look on when it leaves; then none of these is traded any more |
| `TradedItems.CheckTradeState` | src/player.cpp:1353-1372 | The walk up the parents closes the trade exactly when the item offered is the item or above it |
| `TradedItems.OnRemoveItem` | src/player.cpp:1286-1351 | One player who looks on at a removal closes the trade exactly when it is touched |
| `TradedItems.HoldsOffered` | src/player.cpp:1286-1351 | The second check of a removal finds exactly what lies deeper in the container, or in the item |
| `TradedItems.AllSeeLeaving` | src/container.cpp:220-234 | All who look on at a removal, one after the other |
| `TradedItems.AllSeeArriving` | src/container.cpp:188-202 | All who look on at an arrival |
| `TradedItems.Rehang` | src/container.cpp:443-555 | On the forest: unlinking and linking again is exactly `Rehung`, and keeps all links and weights |
| `TradedItems.PathEnds` | src/container.cpp:182-186 | A path goes on from every item on it as the path of that item |
| `TradedItems.PathsAreOk` | src/container.cpp:443-452 | In a linked forest every path is the item followed by the path of its container |
| `TradedItems.UpToBelow` | src/container.cpp:443-555 | What lies between an item and one that is moved lies in what is moved |
| `TradedItems.RehungOk` | src/container.cpp:443-555 | Where items lie after an item was put elsewhere is in order again, and only the item and what it holds have new ancestors |
| `TradedItems.PathsRehung` | src/container.cpp:443-555 | Unlinking followed by linking comes to that |
| `TradedItems.Arrive` | src/container.cpp:188-202 | What those who look on see when the item has arrived is the item, the new container and all above it |
| `TradedItems.CarryItem` | src/game.cpp:1159-1192 | On the forest and linked player objects: notifications before the item leaves and after it has arrived; the trades are as `Seen`, the forest as `Rehung` says |
| `TradedItems.MoveItem` | src/game.cpp:1159-1192 | The same with its consequence for any players who look on: traded items stay apart if and only if the move `StaysApart` |
| `TradeProtocol.Game.Set` | src/game.cpp:2595-2600 | Overwriting the fields of one player is that change of the world |
| `TradeProtocol.Game.Erase` | src/game.cpp:2824-2835 | Taking an item off the list is that change of the world |
| `TradeProtocol.Game.CheckItem` | src/game.cpp:2536-2570 | The loop over all traded items says yes exactly when the item is none of them, lies in none and holds none, by the iterator over containers |
| `TradeProtocol.Game.Offer` | src/game.cpp:2595-2599 | One side of a request: the player's fields and the entry in the list |
| `TradeProtocol.Game.StartTrade` | src/game.cpp:2585-2614 | On linked player objects: it takes effect if and only if the requester is idle or was asked by this very partner and the partner is idle or has this requester as partner; then the offer is made and listed and an idle partner is asked, otherwise nothing changes |
| `TradeProtocol.Game.Release` | src/game.cpp:2817-2829 | One side of a closed trade: the item is off the list and the player idle |
| `TradeProtocol.Game.CloseAll` | src/game.cpp:2810-2856 | Players closing their trades one after the other are the run of these steps |
| `TradeProtocol.Game.BeginTransfer` | src/game.cpp:2650-2663 | On linked player objects: both are marked as in transfer and their items leave the list |
| `TradeProtocol.Game.EndTransfer` | src/game.cpp:2720-2728 | On linked player objects: both are idle again |
| `TradeProtocol.Game.RequestTrade` | src/game.cpp:2536-2614 | On linked player objects and a forest of items: as `StartTrade`, if and only if moreover the item is not traded, lies in no traded one, holds none, holds less than a hundred objects, and no other check says no |
| `TradeProtocol.Game.CloseTrade` | src/game.cpp:2810-2856 | On linked player objects: the step `Close` |
| `TradeProtocol.Game.AcceptTrade` | src/game.cpp:2616-2730 | On linked player objects: the step `Accept`, with players closing their trades while the items change hands |
| `TradeProtocol.Game.Transfer` | src/game.cpp:2660-2730 | On linked player objects: the transfer as one step, followed by what others did meanwhile |
| `TradeRange.StepAdds` | src/game.cpp:2585-2856 | A step of the protocol adds no offer and no partner but those of the request that it is |
| `TradeRange.RangesAre` | src/position.h:44-52 | The ranges in squares |
| `TradeRange.TradeKeepsSound` | src/game.cpp:2455-2614 | Every step of the protocol, with a request checked for its ranges, keeps every offer within one square of its offerer and partners within two |
| `TradeRange.MovedExactly` | src/player.cpp:1241-1250 | A player who has moved keeps the trade exactly as long as the item is within one square and the partner within two |
| `TradeRange.WalkKeepsSound` | src/player.cpp:1221-1250 | A step of any player to anywhere, with all that the player carries, keeps all ranges |
| `TradeRange.OfferersAreTold` | src/container.cpp:220-234 | Whoever offers an item that leaves, or lies in what leaves, is among those who are told |
| `TradeRange.LeftUntraded` | src/player.cpp:1286-1351 | So nothing that leaves is traded any more, and the move keeps traded items apart |
| `TradeRange.PlacesRehung` | src/container.cpp:443-555 | Items are still where their containers are after one of them, with all it holds, was put elsewhere |
| `TradeRange.CarryKeepsSound` | src/game.cpp:1159-1192 | Every move of an item to a container, a floor or a player keeps traded items apart and all offers within range |
| `TradeRange.AppearKeepsSound` | src/container.cpp:443-464 | So does an item that comes into being |
| `TradeRange.VanishKeepsSound` | src/container.cpp:532-555 | So does one that goes out of being, with all it holds |
| `TradeRange.ActionKeepsSound` | src/game.cpp:2455-2614 | So does whatever can happen |
| `TradeRange.OpeningIsSound` | src/game.cpp:2536-2614 | It holds before the first trade, wherever players and items are |
| `TradeRange.EveryRunIsSound` | src/game.cpp:2455-2614 | After every run of requests, acceptances, closings, steps and moves, with no condition on the moves: no traded item lies in another one, every offer is within one square of its offerer and with no other player, partners are within two squares, and the protocol invariant holds |
| `TradeRange.GetSpectators` | src/map.cpp:402-402 | The players within one square, each of them and no other |
| `TradeRange.OnCreatureMove` | src/player.cpp:1221-1250 | On linked player objects: the two checks after a step, the second one on what the first left |
| `TradeRange.RequestTrade` | src/game.cpp:2455-2614 | On linked player objects and a forest: the request with its two ranges and the containment check is the step of the scene |
| `TradeRange.Onlookers` | src/container.cpp:188-202 | Exactly the players within one square of the container |
| `TradeRange.Witnesses` | src/container.cpp:220-234 | Exactly those who must be told that an item leaves: the players within one square of it in a container, the owner of an inventory, all who see a floor |
| `TradeRange.Arrivals` | src/container.cpp:188-202 | Exactly those who must be told that an item has arrived |
| `TradeRange.Carried` | src/game.cpp:1159-1192 | With these notifications and the forest rehung, the scene has made its step |
| `TradeRange.MoveInRange` | src/game.cpp:1159-1192 | On the forest and linked player objects, with everybody told: one step of the scene, after which no traded item lies in another one |
| `OpenContainers.AtHandIsOwn` | src/game.cpp:217-310 | Nothing that another player carries is at hand |
| `OpenContainers.RequestHappens` | src/game.cpp:2455-2582 | A request of an item at hand, checked for its ranges alone, is a step of the range rule, which has the item with no other player |
| `OpenContainers.HappensPlayed` | src/game.cpp:2455-2582 | And the other way round |
| `OpenContainers.WalkKeepsOpen` | src/player.cpp:2937-2952 | After a step all open containers are within one square and with no other player |
| `OpenContainers.CarryKeepsOpen` | src/player.cpp:2983-3010 | So they are after an item was moved |
| `OpenContainers.VanishKeepsOpen` | src/player.cpp:2983-3010 | And after one has gone out of being |
| `OpenContainers.HolderIsTold` | src/container.cpp:633-646 | Whoever holds something open that leaves is told afterwards |
| `OpenContainers.UsedIsNear` | src/actions.cpp:247-260 | A container that may be used is within one square and with no other player |
| `OpenContainers.OuterIsNear` | src/game.cpp:2194-2216 | So is the one that an open container lies in |
| `OpenContainers.ActKeepsOrder` | src/player.cpp:2925-3010 | Whatever happens keeps all of this, and is a step of the range rule or leaves the scene as it was |
| `OpenContainers.EveryHistoryIsInOrder` | src/game.cpp:2455-2614 | Over every run of requests, steps, moves and containers opened and closed: what a player holds open is within one square and with no other player, and the run is one of the range rule |
| `OpenContainers.OpenContainerMap.AddContainer` | src/player.cpp:557-574 | A window shows the container, if its number is in range |
| `OpenContainers.OpenContainerMap.CloseContainer` | src/player.cpp:576-584 | That window is gone and no other |
| `OpenContainers.OpenContainerMap.GetContainerID` | src/player.cpp:604-612 | The first window that shows the container, if one does |
| `OpenContainers.OpenContainerMap.UseContainer` | src/actions.cpp:379-388 | Opens the container, or closes the first window that shows it |
| `OpenContainers.OpenContainerMap.MoveUpContainer` | src/game.cpp:2194-2216 | The window shows the container that its own lies in, if there is one |
| `OpenContainers.OpenContainerMap.LiesIn` | src/player.cpp:2191-2198 | The walk up the parents finds the container exactly when it is on the path |
| `OpenContainers.OpenContainerMap.AutoCloseContainers` | src/player.cpp:2186-2206 | Exactly the windows of the container and of all that lies in it are closed |
| `OpenContainers.OpenContainerMap.OutOfRange` | src/player.cpp:2939-2947 | Exactly the open containers further than one square away |
| `OpenContainers.OpenContainerMap.PostAddNotification` | src/player.cpp:2937-2952 | After a step exactly the windows of these and of all that lies in them are closed |
| `OpenContainers.OpenContainerMap.PostRemoveNotification` | src/player.cpp:2983-3010 | After an item has left, exactly its windows and those of all that lies in it are closed, unless it is still within one square and on a floor or with the player |
| `OpenContainers.PlayerRequestTrade` | src/game.cpp:2455-2614 | On linked player objects and a forest: the request of an item at hand is one act, whoever carries other items |
| `WalkCache.Creature.UpdateTileCache` | src/creature.cpp:343-358 | Exactly the cell of the tile changes |
| `WalkCache.Creature.UpdateMapCache` | src/creature.cpp:327-341 | Every cell says whether its tile can be entered |
| `WalkCache.Creature.RefreshRow` | src/creature.cpp:537-541 | One row is true, the others stay |
| `WalkCache.Creature.RefreshColumn` | src/creature.cpp:573-577 | One column is true, the others stay |
| `WalkCache.Creature.CopyRow` | src/creature.cpp:533-535 | One row takes the values of another |
| `WalkCache.Creature.ShiftSouth` | src/creature.cpp:532-535 | In-place row copies from the bottom up shift the whole array |
| `WalkCache.Creature.ShiftNorth` | src/creature.cpp:543-546 | In-place row copies from the top down shift the whole array |
| `WalkCache.Creature.ShiftWest` | src/creature.cpp:556-571 | In-place cell copies shift the rows from a first one on |
| `WalkCache.Creature.ShiftEast` | src/creature.cpp:579-594 | The same in the other direction |
| `WalkCache.Creature.ShiftRows` | src/creature.cpp:531-553 | The rows after a step |
| `WalkCache.Creature.ShiftColumns` | src/creature.cpp:555-601 | The columns after a step |
| `WalkCache.Creature.RowsTrue` | src/creature.cpp:531-553 | After the row shift every cell is that of the new position, still in the old columns |
| `WalkCache.Creature.ColumnsTrue` | src/creature.cpp:555-601 | After the column shift every cell is that of the new position, but for the rows that were skipped |
| `WalkCache.Creature.LeftIsAccurate` | src/creature.cpp:531-601 | The cells left by the shifts are a fresh cache, or are so exactly under `EvenEdges` |
| `WalkCache.Creature.OnCreatureMove` | src/creature.cpp:525-605 | For every step by one tile: after straight and north-diagonal steps the shifted cache equals a rebuild in every cell but the centre; after a south-diagonal step it does if and only if `EvenEdges` holds |
| `WalkCache.SouthDiagonalFails` | src/creature.cpp:559-594 | A concrete step south-east, from (99, 99) to (100, 100), for which the edges are not even |
| `WalkCache.WrongAfterSouthEast` | src/creature.cpp:525-605 | A creature with a fresh cache takes that step, and its cache is wrong afterwards |
| `WalkCache.Creature.GetWalkCache` | src/creature.cpp:360-388 | With an accurate cache: the walkability of the tile everywhere in range, 1 for the own tile, 0 on another floor, and no answer out of range or without a cache |
| `ConditionLedger.Added` | src/condition.cpp:513-534 | One group of numbers is added or taken back, number by number |
| `ConditionLedger.FromPercent` | src/condition.cpp:461-511 | Percentages replace values by their share of the base, but for the stat without a case |
| `ConditionLedger.PercentIs` | src/condition.cpp:461-511 | The percentage above or below a hundred, to within one: a hundred changes nothing, two hundred adds the base |
| `ConditionLedger.Creature.Book` | src/condition.cpp:484-583 | Exactly the effect of the condition is booked on every number: speed for all, skills, special skills and stats for players |
| `ConditionLedger.Creature.Resolve` | src/condition.cpp:461-511 | Formula and percentages are worked out, nothing else changes |
| `ConditionLedger.Creature.Start` | src/condition.cpp:1591-1604 | A started condition is worked out, booked once, and ends at its time |
| `ConditionLedger.Creature.MergeSpeed` | src/condition.cpp:1616-1645 | Speed changes by the difference of the old and the new value |
| `ConditionLedger.Creature.MergeAttributes` | src/condition.cpp:380-404 | The old values are taken back before the new ones are worked out and booked |
| `ConditionLedger.Creature.Merge` | src/condition.cpp:321-404 | An active condition takes over time and terms of the new one if it yields, and is unchanged otherwise; the numbers change by the difference |
| `ConditionLedger.Creature.BalancedAfterMerge` | src/condition.cpp:380-404 | The ledger balances again after a merge |
| `ConditionLedger.Creature.BalancedAfterStart` | src/creature.cpp:1202-1206 | ... after a start |
| `ConditionLedger.Creature.BalancedAfterEnd` | src/creature.cpp:1224-1276 | ... and after an end |
| `ConditionLedger.Creature.Find` | src/creature.cpp:1324-1332 | The condition with a key, if there is one |
| `ConditionLedger.Creature.HasCondition` | src/creature.cpp:1355-1372 | True exactly when the type is not suppressed and a condition of the type and sub id has time left |
| `ConditionLedger.Creature.AddCondition` | src/creature.cpp:1180-1209 | Keeps the ledger and the uniqueness of keys; a new key joins the list worked out, with its values added and its end set; of a known key the later end counts, one without end stays so, and all others are unchanged; only haste on a paralysed creature is put off |
| `ConditionLedger.Creature.Update` | src/creature.cpp:1195-1200 | Merging into the active condition keeps the ledger, and how long the condition lasts is determined |
| `ConditionLedger.Creature.Join` | src/creature.cpp:1202-1206 | A condition with a new key is started and joins the end of the list, and the ledger balances |
| `ConditionLedger.Creature.RemoveAt` | src/creature.cpp:1251-1276 | Erasing and ending one condition keeps the ledger |
| `ConditionLedger.Creature.RemoveCondition` | src/creature.cpp:1224-1276 | Exactly the matching conditions are gone, the others keep their order, the ledger balances |
| `ConditionLedger.Creature.UnmatchedStep` | src/creature.cpp:1224-1249 | Erasing while walking the list misses no condition |
| `ConditionLedger.Creature.Execute` | src/condition.cpp:170-179 | Ticks are counted down to 0 at most, and the condition ends once its time has passed |
| `ConditionLedger.Creature.Tick` | src/creature.cpp:1341-1343 | Counting down does not disturb the ledger |
| `ConditionLedger.Creature.ExecuteOne` | src/creature.cpp:1336-1352 | One turn over the copied list erases exactly an expired condition |
| `ConditionLedger.Creature.ExecuteEach` | src/creature.cpp:1336-1352 | The loop over the copied list erases exactly the expired conditions |
| `ConditionLedger.Creature.ExecuteConditions` | src/creature.cpp:1334-1353 | Exactly the expired conditions end, the others keep their order and count down, and the ledger balances |
| `ConditionLedger.Creature.BackToBaseline` | src/creature.cpp:1180-1353 | Whatever came and went: without conditions every number is back at its baseline |
| `TaskQueue.LockKept` | src/databasetasks.cpp:33-104 | At most one thread holds the lock, exactly where the code says it does, and it is one of the threads |
| `TaskQueue.OrderKept` | src/databasetasks.cpp:33-95 | What was accepted is what was popped followed by what is queued, in order |
| `TaskQueue.HistoryGrows` | src/databasetasks.cpp:33-95 | A step pops or runs at most one task |
| `TaskQueue.HandsKept` | src/databasetasks.cpp:42-46 | Every thread has run what it popped, but for the task in its hand |
| `TaskQueue.WakeUpKept` | src/databasetasks.cpp:37-65 | The worker never sleeps on a queue of tasks that nobody will wake it for |
| `TaskQueue.ShutKept` | src/databasetasks.cpp:97-104 | Where shutdown got past closing, the queue is closed |
| `TaskQueue.ModeIsLast` | src/databasetasks.cpp:97-104 | After every run the mode is that of the last `stop` or termination |
| `TaskQueue.StepKeeps` | src/databasetasks.cpp:33-104 | Every action of any thread keeps all of this |
| `TaskQueue.RunKeeps` | src/databasetasks.cpp:33-104 | So does every interleaving |
| `TaskQueue.PopsFollowAcceptance` | src/databasetasks.cpp:33-95 | In every interleaving tasks are popped in the order of acceptance, none lost and none twice |
| `TaskQueue.AcceptedExactly` | src/databasetasks.cpp:53-66 | In every run the accepted tasks are exactly those pushed while the queue was running, in this order, each the one its thread called `addTask` with |
| `TaskQueue.EveryPushIsKept` | src/databasetasks.cpp:33-66 | As long as nobody stops or terminates the queue, every task pushed was popped or is still queued, in the order of the pushes |
| `TaskQueue.AddGoesThrough` | src/databasetasks.cpp:53-66 | An undisturbed `addTask`: a running queue takes the task and wakes a worker that waits for it, any other stays as it is |
| `TaskQueue.RoundGoesThrough` | src/databasetasks.cpp:33-51 | An undisturbed round of the worker runs the front task |
| `TaskQueue.FlushGoesThrough` | src/databasetasks.cpp:83-95 | An undisturbed turn of `flush` runs the front task or ends the flush |
| `TaskQueue.ClosedStaysEmpty` | src/databasetasks.cpp:53-66 | A closed and empty queue stays empty and accepts nothing, whatever happens |
| `TaskQueue.ShutdownIsFinal` | src/databasetasks.cpp:97-104 | Once `shutdown` has returned anywhere, everything accepted was popped, and that is final |
| `TaskQueue.AllRun` | src/databasetasks.cpp:42-46 | When nobody is in the middle of a task, everything popped has been run by the thread that popped it |
| `TaskQueue.WorkerMayMissShutdown` | src/databasetasks.cpp:36-40 | A concrete run, with and without a `stop` before it, in which the worker goes to sleep after the last wake-up of `shutdown` |
| `TaskQueue.ShutdownReturns` | src/databasetasks.cpp:97-104 | The part of that run up to the return of `shutdown` |
| `TaskQueue.MissesShutdownExactly` | src/databasetasks.cpp:33-104 | In every run, at the wake-up of `shutdown`: without further calls of `stop` the worker can still come to wait if and only if `MayMiss`: in a terminated queue, it is about to take the lock or holds it before its look at the queue, and otherwise it never waits and can finish; in a queue that a `stop` set to closing again, it has not finished and does not need a lock that is with a thread about to terminate. With further calls of `stop` it can if and only if it has not finished |
| `TaskQueue.LockIsGivenUp` | src/databasetasks.cpp:53-104 | Once the queue is closed and empty, the thread that holds the lock can give it up |
| `TaskQueue.CanWait` | src/databasetasks.cpp:36-40 | Before its look at a closed and empty queue the worker can come to wait |
| `TaskQueue.CanWaitAgain` | src/databasetasks.cpp:33-51 | In a queue that is only closing it can from everywhere, unless it is held up |
| `TaskQueue.HeldNeverWaits` | src/databasetasks.cpp:33-51 | Held up by a thread that is about to terminate, it never waits without a further `stop` |
| `TaskQueue.CanWaitWithStop` | src/databasetasks.cpp:33-51 | With further calls of `stop` it can from everywhere |
| `TaskQueue.StopUndoesShutdown` | src/databasetasks.cpp:33-51 | After a `stop` that came last the worker never finishes, unless `shutdown` is called again |
| `TaskQueue.NotifiedMisses` | src/databasetasks.cpp:33-104 | All of this, from any state with a closed and empty queue |
| `TaskQueue.Notification` | src/databasetasks.cpp:103-103 | The wake-up itself changes none of the conditions |
| `TaskQueue.StaysAwake` | src/databasetasks.cpp:33-51 | From any other position in a terminated queue it never waits, whatever is done but `stop` |
| `TaskQueue.CanFinish` | src/databasetasks.cpp:33-51 | And from there it can finish |
| `TaskQueue.WaitsForGood` | src/databasetasks.cpp:36-40 | A worker that missed the wake-up waits for good, unless `shutdown` is called again or the wait ends without a notification |
| `DamageList.CloserIff` | src/condition.cpp:1508-1510 | The comparison of relative errors is one of integers, also for a share of zero |
| `DamageList.DamageLevel` | src/condition.cpp:1504-1510 | One level deals at least one round and stops exactly where the sum is closest to its share |
| `DamageList.GenerateDamageList` | src/condition.cpp:1494-1512 | For every start and amount: the list does not rise, holds exactly the values from start to 1, and its total is the amount if the sum before the last level is below it, and otherwise that sum plus one; it lies between amount or start(start+1)/2 and their sum; every level ends as close to its share as one round can tell |
| `DamageList.TriangleIsSquare` | src/condition.cpp:1500-1511 | The least damage of all levels in closed form |
| `DamageList.Share` | src/condition.cpp:1501-1502 | The share of a level lies between 0 and the amount, and is the amount on the last one |
| `DamageList.NextLevel` | src/condition.cpp:1500-1511 | A further level keeps the list falling and complete |
| `DamageList.LevelsKept` | src/condition.cpp:1500-1511 | Every level ends as close to its share of the amount as one round can tell, and later levels change nothing about it |
| `SpellArea.QuarterTurnOffsets` | src/combat.cpp:1280-1287 | A cell at an offset from the centre is set in the area turned by 90 degrees exactly when the offset turned back is set in the original |
| `SpellArea.HalfTurnOffsets` | src/combat.cpp:1289-1293 | The same for 180 degrees |
| `SpellArea.ThreeQuarterTurnOffsets` | src/combat.cpp:1295-1302 | The same for 270 degrees |
| `SpellArea.QuarterTwiceIsHalf` | src/combat.cpp:1280-1293 | Turning by 90 degrees twice is turning by 180 |
| `SpellArea.ThreeQuarterUndoesQuarter` | src/combat.cpp:1280-1302 | The 270 degree turn undoes the 90 degree turn |
| `SpellArea.QuarterUndoesThreeQuarter` | src/combat.cpp:1280-1302 | And the other way round |
| `SpellArea.FourQuarters` | src/combat.cpp:1280-1302 | Four quarter turns restore any area; three of them are the 270 degree turn |
| `SpellArea.MirrorWraps` | src/combat.cpp:1280-1302 | A mirrored centre that wraps around still gives the mirrored offsets |
| `SpellArea.AssignSlice` | src/combat.cpp:1280-1302 | Assigning one strided slice to another changes exactly its elements |
| `SpellArea.OneMoreColumn` | src/combat.cpp:1282-1285 | A further slice fills a further column and no other |
| `SpellArea.OneMoreRow` | src/combat.cpp:1297-1300 | A further slice fills a further row and no other |
| `SpellArea.Rotate90` | src/combat.cpp:1280-1287 | The strided loop computes the quarter turn, for every size and centre |
| `SpellArea.Rotate180` | src/combat.cpp:1289-1293 | Reversing the cells is the half turn |
| `SpellArea.Rotate270` | src/combat.cpp:1295-1302 | The strided loop computes the three-quarter turn |
| `SpellArea.LastCenter` | src/combat.cpp:50-58 | The last number that marks a centre |
| `SpellArea.CreateArea` | src/combat.cpp:36-67 | The cells are those that the numbers mark, the centre is the last one marked |
| `SpellArea.Listed` | src/combat.cpp:69-93 | Only positions in sight are listed |
| `SpellArea.ListIsCover` | src/combat.cpp:69-93 | The list holds exactly the positions in sight under set cells |
| `SpellArea.GetList` | src/combat.cpp:69-93 | Walking the map in step with the cells gives that list, across the wrap-around of coordinates |
| `SpellArea.QuarterTurnCovers` | src/combat.cpp:69-93 | The tiles under a turned area are the tiles under the original, turned about the target |
| `SpellArea.HalfTurnCovers` | src/combat.cpp:69-93 | The same for the half turn |
| `SpellArea.ThreeQuarterTurnCovers` | src/combat.cpp:69-93 | The same for the three-quarter turn |
| `SpellArea.TurnsHitOneShape` | src/combat.cpp:1339-1350 | All four directions hit one shape, turned about the target |
| `SpellArea.AheadStaysAhead` | src/combat.cpp:1339-1350 | What is ahead in the northern shape is ahead in every direction, and what is to the right is to the right |
| `SpellArea.DrawnAbove` | src/combat.cpp:36-93 | A small matrix drawn above its centre hits exactly the two tiles to the north |
| `SpellArea.TurnsFollowTheCompass` | src/combat.cpp:1339-1350 | Neighbouring directions are a quarter turn apart, all the way round |
| `SpellArea.AreaCombat.DirectionTo` | src/combat.cpp:1304-1329 | Which side the target is on; across wins over up and down |
| `SpellArea.AreaCombat.GetArea` | src/combat.cpp:1304-1337 | The area of that side, or an empty one |
| `SpellArea.AreaCombat.SetupArea` | src/combat.cpp:1339-1350 | The first four areas are the four turns of the shape drawn by the numbers; extended areas stay |
| `SpellArea.AreaCombat.GetTiles` | src/combat.cpp:69-93 | The tiles are exactly the positions in sight that the area on the side of the target covers; with the four areas of a spell, exactly those that the northern shape, turned towards the target, covers |
| `SpellArea.GetCombatArea` | src/combat.cpp:95-110 | For every caster, target and area: nothing above the last floor, the target alone without an area, otherwise exactly the tiles above |
| `Layouts.ByteAt` | src/fileloader.h:147-151 | Byte `i` of a number is its digit of weight 256 to the power of `i` |
| `Layouts.MinusOne` | src/fileloader.h:147-151 | Negative numbers are in two's complement |
| `Layouts.ItemBytes` | src/item.cpp:695-825 | The bytes of an item with everything that is stored, spelled out |
| `Layouts.ReadOver` | src/item.cpp:371-694 | The codes of other classes of items are read over with their widths |
| `Layouts.BagBytes` | src/iomapserialize.cpp:217-237 | The bytes of a bag with two stacks, children from behind |
| `Layouts.BagRows` | src/iologindata.cpp:511-570 | The rows of a bag with two stacks and of a stack in another slot |
| `Layouts.ConditionBytes` | src/condition.cpp:143-162 | The bytes of a regeneration condition |
| `Layouts.NodeIsRead` | src/fileloader.cpp:52-100 | A file of two nodes with an escaped property is read as its tree; trailing bytes are allowed unless they start or end a node, and a missing end is refused |
| `Layouts.NodeIsWritten` | src/fileloader.h:34-48 | The bytes of the two nodes |

## Left out

- Integer wrap-around of weights, counts, worths, ticks and row ids: unbounded integers are used there. Widths are explicit in the byte codecs, for one-byte counts, and in `SpellArea`.
- Floating point: `DamageList`, the rounding up in `Money` and percentages use exact arithmetic; a stored double is its 64 bits.
- Everything above a container: players, tiles, depots and houses as cylinders, the NEEDEXCHANGE branch of `internalMoveItem`, carrying capacity, store and house restrictions, FLAG_NOLIMIT and FLAG_CHILDISOWNER in moves and adds.
- Scripts, events, notifications to clients, logging, XML, network and database access; rows and bytes are sequences, and a failing query is not modelled.
- The decay that `internalMoveItem` and `internalAddItem` start for an item with a duration, which bypasses the guard of `startDecay`.
- Reference counting: an item that is released simply leaves the forest.
- ItemMoves.CheckMove: FLAG_NOLIMIT and FLAG_CHILDISOWNER are not modelled.
- ItemMoves.PlanMove: the same two flags.
- ItemMoves.InternalMoveItem: the same two flags; that no item type is both stackable and fluid and that stacks are 1 to 100 is required, as the item definitions and all other operations see to it.
- ItemMoves.StackMovesInFull: the same two flags.
- ItemMoves.ItemMovesInFull: the same two flags.
- ItemMoves.PlanAdd: the same two flags.
- ItemMoves.InternalAddItem: the same two flags, for an item that lies nowhere yet, as all callers have it.
- ItemMoves.CloneStack: the copy has the attributes of the original; attributes that the constructor of an item gives by default are not added first, and no decay is started.
- ItemMoves.Merge: items are alike when id and attributes agree; the item-by-item comparison of custom attributes is not modelled.
- ItemMoves.QueryRemove: without house tiles.
- ItemForest.Item.UpdateThing: the attributes that setting an id touches are those of durations, decay state and corpse owner.
- ItemCodec.ReloadedIsExact: unique id, owner, corpse owner, door id and the states of beds, doors, teleports, mailboxes and depots are not part of an item; their codes are read over. Custom attributes are kept in the order of insertion where the server has a hash map.
- ItemCodec.UnserializeAttr: the codes of the unique id and of the states above are read over.
- MapItemCodec.LoadedItem: the same as `LoadItem`.
- MapItemCodec.LoadItem: for a parent that is a container; the search for a stationary item on a tile, tiles and houses are not modelled, nor the start of a decay, nor an id that becomes that of a container when the item is created.
- RowCodec.CreateItems: rows are given with pids below their sids, as the writer leaves them.
- RowCodec.AttachItem: the same order of rows.
- RowCodec.AttachItems: the same order of rows.
- RowCodec.LoadForest: the same order of rows; carriers (inventory slots, depots) are numbers.
- ConditionCodec.WithField: a value behind the end of an array of attributes is dropped; the server does not check for it.
- ConditionCodec.ConditionRoundTrip: the end time, running timers, and of damage the owner and the formula behind the rounds are not persisted and not part of a condition here.
- ContainerIteration.IsHoldingItem: items are compared by identity.
- Money.RemoveMoney: the carrier is a plain container, as in `ItemMoves`; slots of a player are not modelled. Money is stacked, and nothing forbids that it is removed.
- Money.AddNew: coins have no attributes of their own, and what goes to the ground is listed, not put on a tile.
- DecayWheel.Wheel.InternalDecayItem: the successor is the same object with another id; transformations by scripts and failed removals are not modelled.
- DecayWheel.Wheel.StartDecay: an item has its full duration when it becomes another type.
- TradeProtocol.EveryRun: the moves of the two traded items and the check whether they fit are an arbitrary choice.
- TradeProtocol.Game.RequestTrade: distance, sight, items at hand and scripts are one arbitrary verdict; the distances are in `TradeRange.RequestTrade`.
- TradedItems.MoveItem: the item moved is the same object before and after; parts of stacks, whole stacks, which the server moves by a copy (src/game.cpp:1159-1178), and replaced items are not moved in this way. In a run of `TradeRange` a stack vanishes and its copy appears.
- TradedItems.CarryItem: the same.
- TradeRange.EveryRunIsSound: items on the floor or with players; depots, houses that change hands, and items that change their type in place are not modelled. The moves of a trade itself come after its step. Players who join or leave are those who never act, and a closing.
- TradeRange.RequestTrade: an item that is with a player is required to be with the one who asks; `OpenContainers` proves it of every item that a player can name. Sight and scripts are an arbitrary verdict.
- TradeRange.MoveInRange: where the players are and where items lie on the map is given with the call, and so are those who see a floor, at least all players within one square of it. The checks and the destination of a move are those of `ItemMoves`.
- TradeRange.GetSpectators: the position is on one of the map's floors.
- OpenContainers.EveryHistoryIsInOrder: lockers, depots and the windows of a field are not modelled, nor who may open a corpse; whether the server marks an item as removed is known from where it lies.
- TradeProtocol.Game.Transfer: what happens between the two moves are players closing their trades; any other steps are in `TransferIsAtomic`.
- WalkCache.Creature.OnCreatureMove: steps on one floor by one tile; teleports and floor changes rebuild the cache, and the tiles a creature leaves and enters are the only ones whose walkability may change with its step.
- ConditionLedger.Creature.AddCondition: a condition of a known key has the class of the active one; changing parameters of an active condition, disabled defence, and executing conditions from within conditions are not modelled. What other classes of conditions do to a creature is not booked.
- ConditionLedger.Creature.HasCondition: the immunities of a creature are a set of types.
- ConditionLedger.Creature.Execute: whether a condition of another class goes on is an arbitrary choice.
- TaskQueue.RunKeeps: every thread sees every change at once; the server loads and stores the state of a thread with relaxed memory order (src/thread_holder_base.h:48-52), and reorderings that this allows outside the lock are not modelled.
- TaskQueue.AllRun: what a task does, and its callback, are not modelled; wake-ups may be spurious.
- OtbLoader.Loader.ParseTree: memory mapping and the loading of the file are not modelled.
- SpellArea.GetCombatArea: sight is an arbitrary predicate, and tiles that do not exist are not created.
- SpellArea.AreaCombat.SetupArea: no number marks a cell behind the end of the matrix; `flip`, `mirror` and `transpose`, extended areas, and the shapes made from a length, a radius or a ring are not modelled.
- DamageList.GenerateDamageList: exact arithmetic where the server has float and double.
- SpellArea.CreateArea: no number marks a cell behind the end of the matrix.
