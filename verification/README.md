# hmp: trees, lists, hashing and cluster start-up

hmp joins the memory of several machines over RDMA. This project models four parts of it and
proves what they promise:

* **The intrusive red-black tree** (`hmp_rbtree.c`). `RbSpec` gives the tree and its one-hole
  contexts as values, with the two fix-up loops as functions and the proofs of order, balance and
  termination. `RbCells` says when linked nodes spell such a tree; every node carries a ghost rank
  between the ranks of its neighbours, so that distinct subtrees cannot share a node. `RbTree`,
  `RbInsert`, `RbReplace`, `RbErase` and `RbWalk` are the C functions as methods that assign
  links and colours in place, each proved to do what the function in `RbSpec` says. `RbRuns`
  states the result for callers: operations on a plain sequence of node identities. The repository has
  no key search, so a caller names the empty position it links at. `RbPacked` shows that any program
  that stores only null, nodes or parents it has read does on packed parent/colour words, wherever
  the nodes are, what it does on the two fields used elsewhere; both rotations are such programs.
  `RbPackedTree` goes on to show that the rotations on packed words rotate the whole tree. `RbCases` draws the
  cases of the fix-up loops as trees before and after.
* **The circular list and its users** (`linux/list.h`, `hmp_node.c`, `hmp_transport.c`). A list is
  a ring of links, and each operation is stated on the sequence of links. `HashRing` builds the
  consistent-hashing ring, `KeyText` says which nodes have the same key text (`Decimal` has the digits),
  `Devices` releases the device list while walking it.
* **MurmurHash3 for 32 bits** (`hmp_murmur_hash.c`). The negative-index loop and the fall-through
  switch equal a fold over little-endian words, and the fold never maps two keys together that
  differ inside one aligned word. `MurmurValues` has the steps in the constants of the definition and the hashes of
  some keys as numbers.
* **Cluster start-up** (`hmp_transport.c`, `hmp_node.c`, `hmp_task.c`, `hmp_mem.c`). `Handshake`
  is a step system of any number of nodes in which main threads and event threads take turns in any order;
  `Delivery` counts messages over its runs; `TransportStates` says which state each step leaves a
  transport in and what memory a node has stored; `Tables` says which transports a node finds; `Startup`
  has a run, for clusters of any size, that connects everything; `HmpNode`
  has the handlers as methods on a node's fields, runs a cluster of such nodes and proves that it
  does what the step system says; `Wire` is the message in bytes; `Layout` the message slots and blocks of the pool;
  `Address` the global addresses.

## Facts about the code

* A request that arrives between the start of listening and the clearing of `connect_trans`
  (hmp_node.c:87-90) is answered, but its transport is lost from the table. `TransportFound`
  says that this is the only way to lose one, and `LostTransport` gives a run.
* The main thread writes CONNECTING after it issued the connection (hmp_transport.c:786-793). If
  the peer's message is handled before that write, the transport is CONNECTING for ever,
  since each end gets just one message. `ConnectedExactly` says when, and `LateMark` gives a run.
* `hmp_malloc` does not check the size of the pool. `InsidePool` is the exact condition.
* The remote address of a request is the bare offset; the base address that the peer sent is not added
  (hmp_mem.c:129-169). `BaseIsNotAdded` says for every offset when this reaches the right place, and
  `PostedAtOffset` gives a run for every offset.
* Ring keys join address and port without a separator, so different nodes can share a key:
  10.0.0.1 with port 12345 and 10.0.0.11 with port 2345 (`SharedKeyExample`). `SameKeyText` says
  exactly which nodes have the same key text, for all values of the port: the text is cut to nine
  characters (hmp_node.c:22), and a negative port brings a sign. The order of the ring is proved for any keys.
* `list_cut_position` on an empty list leaves `list` as it was, although its comment allows a
  `list` whose data the caller does not care about. Splicing back then puts that data into
  the list. `CutThenSplice` has the exact condition, and `NotRestored` such lists.
* A read or write to a node whose transport is not in the table passes a null transport on, which
  `hmp_transport_check_state` dereferences (hmp_transport.c:838). The outcome `NoTransport` stands for this, and
  `RequestReachesNode` says when it happens.
* A connection request from an address that no earlier node has is answered all the same. Its transport keeps node
  number 0, so that its first message is stored as the memory of node 0 (hmp_transport.c:507-519, 229-232); see
  `Stranger`.
* Two posted sends to one peer use the same slot, whether or not the first is done; `RunDisjoint`
  is the exact condition for two calls to use the same memory.

## Assumptions

* One configuration on all nodes, distinct addresses, and connections that come from the configured
  address. Messages on a connection arrive once and in order. Handlers are atomic.
* Memory accesses are little-endian, as `getblock32` and the message reads take them.
* Key lengths are below 2^31, as `nblocks` is an `int`.
* At most 8 nodes (`HMP_NODE_NUM`) where global addresses must fit 64 bits.
* A configured address has at most 17 characters (`HMP_ADDR_LEN`) and no zero byte inside.

## Reading the methods

Ghost parameters (`k`, `t`, `f`, `s`, `i`) say where in the tree or ring the pointers given to
an operation are; they exist for the proof only. Methods whose name ends in `Links` are the bare
assignments; the methods beside them add what is framed and the bookkeeping of the ghost tree. Loop bodies are
methods of their own. Automatic induction is switched off for all lemmas, so that every induction is written out. A null link in a list stands for the poison of `list_del`.

## Model

| member | source | states |
|---|---|---|
| RbSpec.RotateInverse | hmp_rbtree.c:3-47 | A left rotation and a right rotation at the same place undo each other, both ways |
| RbSpec.RotateInorder | hmp_rbtree.c:3-47 | Rotations keep the in-order sequence |
| RbSpec.InsertStepOk | hmp_rbtree.c:53-109 | A turn of the insert loop finds a grandparent, keeps "valid but for a red node under a red parent" and goes up |
| RbSpec.InsertStepInorder | hmp_rbtree.c:53-109 | A turn of the insert loop keeps the in-order sequence |
| RbSpec.AtMostTwoRotations | hmp_rbtree.c:53-109 | However deep the new node is, at most two rotations repair the tree |
| RbSpec.InsertTurnsBound | hmp_rbtree.c:53-109 | The insert loop takes at most half as many turns as the new node is deep, rounded up |
| RbSpec.InsertFixCorrect | hmp_rbtree.c:49-112 | The insert loop ends in a valid red-black tree with the same sequence |
| RbSpec.InsertCorrect | hmp_rbtree.c:49-112 | Linking at any empty position of a valid tree and fixing up gives a valid tree with the new node at just that position |
| RbSpec.SiblingExists | hmp_rbtree.c:119-122 | While a subtree is one black short, its parent's other child exists |
| RbSpec.EraseLiftOk | hmp_rbtree.c:123-130 | Rotating a red sibling up keeps the shortage at the same place, now beside a black sibling |
| RbSpec.EraseSettleOk | hmp_rbtree.c:131-156 | With a black sibling the shortage goes up, or is made good by the rotations and recolourings |
| RbSpec.EraseStepOk | hmp_rbtree.c:119-197 | A turn of the erase loop keeps "valid but one black short" and the sequence, and decreases the pair of depth and colour |
| RbSpec.AtMostThreeRotations | hmp_rbtree.c:119-195 | However deep the missing node was, at most three rotations repair the tree |
| RbSpec.EraseTurnsBound | hmp_rbtree.c:119-195 | The erase loop takes at most as many turns as the hole is deep, although a turn can push the hole down |
| RbSpec.EraseFixCorrect | hmp_rbtree.c:114-198 | The erase loop ends in a valid red-black tree with the same sequence |
| RbSpec.EraseCorrect | hmp_rbtree.c:200-265 | Erasing any node of a valid tree, the spliced successor included, gives a valid tree without just that node |
| RbSpec.EraseAt | hmp_rbtree.c:200-265 | The same by position: exactly the i-th node is gone |
| RbSpec.ReplaceAt | hmp_rbtree.c:346-367 | A replaced node keeps position, colour and validity |
| RbCases.InsertStepMirror | hmp_rbtree.c:58-109 | A turn of the insert loop on the mirror image is the mirror image of the turn |
| RbCases.RedUncle | hmp_rbtree.c:60-69 | Left parent, red uncle: both become black, the grandparent red, and the loop goes on there |
| RbCases.RedUncleInner | hmp_rbtree.c:60-69 | The same when the new node is inside |
| RbCases.OuterGrandchild | hmp_rbtree.c:80-82 | Black uncle, new node outside: the parent goes over the grandparent |
| RbCases.InnerGrandchild | hmp_rbtree.c:71-82 | Black uncle, new node inside: it goes over both |
| RbCases.EraseStepMirror | hmp_rbtree.c:121-194 | A turn of the erase loop on the mirror image is the mirror image of the turn |
| RbCases.RedSibling | hmp_rbtree.c:124-130 | A red sibling goes over the parent |
| RbCases.BlackNephews | hmp_rbtree.c:131-137 | A black sibling with black children becomes red, and the loop goes on at the parent |
| RbCases.RedFarNephew | hmp_rbtree.c:149-155 | A red far nephew, whatever the near one is: the sibling takes the parent's place and colour |
| RbCases.RedNearNephew | hmp_rbtree.c:140-155 | Only the near nephew is red: it takes the parent's place and colour |
| RbCases.SuccessorIsNext | hmp_rbtree.c:213-215 | With two children, the node that takes the place is the next one in the sequence |
| RbSpec.HeightLogarithmic | hmp_rbtree.c:49-265 | A valid tree of n nodes has 2^height <= (n+1)^2, that is, height at most 2 log2(n+1) |
| RbCells.RotateLeftLaid | hmp_rbtree.c:3-24 | The link assignments of a left rotation turn linked nodes that spell a tree into ones that spell the rotated tree |
| RbCells.RotateRightLaid | hmp_rbtree.c:26-47 | The same for a right rotation |
| RbCells.CutLaid | hmp_rbtree.c:247-260 | Linking the only child of a node to the node's parent spells the tree without the node |
| RbCells.ReplaceLaid | hmp_rbtree.c:346-367 | The assignments of a replacement spell the tree with the new node |
| RbTree.RbRoot.RotateLeft | hmp_rbtree.c:3-24 | In place: links consistent up to the root, the rotated tree, and no field of a node outside the rotated pair, the moved subtree's root and the parent rewritten |
| RbTree.RbRoot.RotateRight | hmp_rbtree.c:26-47 | The mirror image |
| RbInsert.LinkNode | hmp_rbtree.h:63-70 | The new node hangs red at the empty position and all links are consistent |
| RbInsert.Turn | hmp_rbtree.c:53-109 | A turn of the loop in place is the step of the specification |
| RbInsert.InsertColor | hmp_rbtree.c:49-112 | The loop in place ends, meets no null grandparent, leaves the tree of `InsertFix` and makes exactly the rotations that are counted there |
| RbErase.SettleLeft | hmp_rbtree.c:131-156 | The cases with a black sibling, hole on the left, in place |
| RbErase.SettleRight | hmp_rbtree.c:168-193 | The cases with a black sibling, hole on the right, in place |
| RbErase.Turn | hmp_rbtree.c:121-194 | A turn of the loop in place is the step of the specification; the sibling is never null |
| RbErase.EraseColor | hmp_rbtree.c:114-198 | The loop in place ends, leaves the tree of `EraseFix` and makes exactly the rotations that are counted there |
| RbErase.ExchangeWithSuccessor | hmp_rbtree.c:208-243 | The successor is unlinked and takes the node's place, with child, parent and colour for the fix-up |
| RbErase.Erase | hmp_rbtree.c:200-265 | Erase in place leaves the tree of the specification and all links consistent, with at most three rotations |
| RbReplace.ReplaceNode | hmp_rbtree.c:346-367 | Replacement in place leaves the tree with the new node, and all links consistent |
| RbWalk.First | hmp_rbtree.c:270-280 | The first node of the sequence, or null |
| RbWalk.Last | hmp_rbtree.c:282-292 | The last node of the sequence, or null |
| RbWalk.Next | hmp_rbtree.c:294-320 | The next node of the sequence, null at the end and for a cleared node; the climb ends |
| RbWalk.Prev | hmp_rbtree.c:322-344 | The node before, null at the start and for a cleared node; the climb ends |
| RbWalk.Walk | hmp_rbtree.c:270-320 | The loop from first by next visits the sequence, each node once, and stops |
| RbWalk.WalkBack | hmp_rbtree.c:282-344 | The loop from last by prev visits it in reverse |
| RbWalk.ForthAndBack | hmp_rbtree.c:294-344 | prev(next(x)) is x wherever next(x) exists, which is everywhere but at the end |
| RbRuns.SoundNoRepeat | hmp_rbtree.c:49-265 | Consistent links never reach a node twice |
| RbRuns.Insert | hmp_rbtree.c:49-112 | Link and fix up: a valid tree, the new node at the linked position, no node lost, at most two rotations |
| RbRuns.Erase | hmp_rbtree.c:200-265 | A valid tree with exactly one node less |
| RbRuns.Replace | hmp_rbtree.c:346-367 | A valid tree with one node exchanged |
| RbRuns.GapAfter | hmp_rbtree.h:63-70 | Every gap of the sequence is an empty child position, and which one |
| RbRuns.Run | hmp_rbtree.c:49-367 | Any run from an empty root ends in a valid tree of logarithmic height that holds what the run leaves in a plain sequence, with at most three rotations an operation |
| RbRuns.RotateThereAndBack | hmp_rbtree.c:3-47 | Left then right in place restores every link, colour and the root, in any consistently linked tree, red-black or not |
| RbRuns.RotateBackAndThere | hmp_rbtree.c:3-47 | Right then left in place restores every link, colour and the root, in any consistently linked tree |
| RbPacked.WithParentFields | hmp_rbtree.h:34-37 | Setting the parent stores it and keeps the colour for every word exactly if the address is aligned |
| RbPacked.WithColorFields | hmp_rbtree.h:38-41 | Setting the colour stores it and keeps the parent |
| RbPacked.FieldsInFull | hmp_rbtree.h:27-30 | The parent is the word without its two lowest bits, the colour its lowest bit, 0 for red |
| RbPacked.WithParentInFull | hmp_rbtree.h:34-37 | In bits: what `rb_set_parent` stores |
| RbPacked.KnownWords | hmp_rbtree.h:27-41 | Some words, addresses and results as numbers |
| RbPacked.Perform | hmp_rbtree.h:27-70 | Each access made by the methods of the nodes is the access to words |
| RbPacked.AccessRefines | hmp_rbtree.h:27-41 | An access to packed words reads as the access to two fields, on every node |
| RbPacked.PackedRefinesFields | hmp_rbtree.h:27-70 | So does any list of accesses |
| RbPacked.ProgramRefines | hmp_rbtree.h:27-70 | So does any program that chooses its accesses by what it reads and stores only null, nodes or parents it has read, with nodes at any different aligned addresses |
| RbPacked.RotateClosed | hmp_rbtree.c:3-47 | Both rotations are such programs |
| RbPacked.PackedRotation | hmp_rbtree.c:3-47 | On packed words a rotation writes the parents of the moved subtree, the lifted and the lowered node, and every node keeps its colour |
| RbPackedTree.PackedRotationTurns | hmp_rbtree.c:3-47 | On packed words the rotations turn links that spell a tree, from the root's link on, into ones that spell the rotated tree |
| RbPacked.PackedNode.SetParent | hmp_rbtree.h:34-37 | In place: the parent is stored and the colour is kept |
| RbPacked.PackedNode.SetColor | hmp_rbtree.h:38-41 | In place: the colour is stored and the parent is kept |
| List.RingFrom | linux/list.h:56-60 | A ring may be read from any of its links, so operations at any link reduce to ones at the head |
| List.Add | linux/list.h:68-90 | The new link comes right after the given one; next and prev stay inverse |
| List.AddTail | linux/list.h:100-104 | The new link comes right before the given one |
| List.Del | linux/list.h:112-134 | The ring without the link, whose own links are poisoned |
| List.DelInit | linux/list.h:163-167 | The ring without the link, which becomes an empty list |
| List.Replace | linux/list.h:143-150 | The new link takes the old one's place; an empty head is replaced by an empty head |
| List.ReplaceInit | linux/list.h:152-157 | The same, and the old link becomes an empty list |
| List.Move | linux/list.h:174-178 | Within a ring: the link goes right after another one |
| List.MoveAcross | linux/list.h:174-178 | Between rings: both are rings afterwards |
| List.MoveTail | linux/list.h:185-190 | Within a ring: the link goes right before another one |
| List.MoveTailAcross | linux/list.h:185-190 | Between rings: both are rings afterwards |
| List.Tests | linux/list.h:197-252 | Empty, last and singular by length and position |
| List.RotateLeft | linux/list.h:235-243 | The first entry becomes the last, and an empty list stays |
| List.CutPosition | linux/list.h:280-292 | The links up to the entry and the rest, both rings; unchanged where the code does nothing |
| List.SpliceBetween | linux/list.h:294-306 | The entries of one ring go between two neighbours of another; if `list` heads no ring, when an empty list stays one |
| List.Splice | linux/list.h:313-318 | The entries go right after the given link |
| List.SpliceTail | linux/list.h:325-330 | The entries go right before the given link |
| List.SpliceInit | linux/list.h:339-346 | As the first, and the spliced head becomes empty |
| List.SpliceTailInit | linux/list.h:356-363 | As the second, and the spliced head becomes empty |
| List.CutThenSplice | linux/list.h:254-318 | Cutting anywhere and splicing back restores the ring, for the empty list exactly if `list` was empty or linked back to it |
| List.NotRestored | linux/list.h:280-318 | An empty list and a `list` with an entry: cutting and splicing back leaves that entry in the list |
| Devices.Release | hmp_transport.c:119-134 | Unlinking, unlinking again and freeing leaves the ring of the others and poisoned links |
| Devices.ReleaseAll | hmp_transport.c:126-135 | Every device is released once, in order, no freed link is read, and an empty ring is left |
| HashRing.OrderedCorrect | hmp_node.c:18-52 | The ring is sorted by key, ties in configuration order, and holds every node once |
| HashRing.OrderedUnique | hmp_node.c:18-52 | It is the only such sequence |
| KeyText.FullTextReads | hmp_node.c:22 | The text of a port reads back, as decimal characters without leading zero and with a sign if negative, as the port |
| KeyText.BuildKey | hmp_node.c:21-26 | The buffer holds the address, the port's text as far as it was kept, and one zero; `strlen` finds their length |
| KeyText.NodeKey | hmp_node.c:32-33 | The key is the hash of just these bytes, the zero included |
| KeyText.KeyExample | hmp_node.c:21-32 | 10.0.0.1 with port 8080 has the key 0x89722e1e |
| KeyText.KeysInOneWord | hmp_node.c:21-32 | Nodes whose key texts differ inside one aligned word or the tail have the same key exactly if the texts are the same |
| KeyText.SameKeyText | hmp_node.c:21-25 | For all addresses and ports: two nodes have the same key text exactly if address and shown port are the same, or the sign or leading digits of one's shown port stand at the end of the other's address |
| KeyText.SharedKey | hmp_node.c:21-32 | Such nodes share a key, and are different when characters moved |
| KeyText.SharedKeyExample | hmp_node.c:21-32 | 10.0.0.1 with port 12345 and 10.0.0.11 with port 2345 share a key |
| HashRing.FindLarger | hmp_node.c:40-47 | The walk finds the first link with a larger key, or none |
| HashRing.Place | hmp_node.c:36-51 | An entry comes into the ring in front of the first larger key |
| HashRing.Listing | hmp_node.c:54-56 | The loop over a ring meets every entry once, in order, and stops at the head |
| HashRing.HashInit | hmp_node.c:12-57 | The linked ring carries the sorted sequence, for every configuration, and the closing loop meets it |
| MurmurValues.StepInFull | hmp_murmur_hash.c:88-96 | Each assignment of the body loop, with its constants and rotation distances |
| MurmurValues.FinishInFull | hmp_murmur_hash.c:56-65 | Each assignment of the finalisation, with its constants and shifts |
| MurmurValues.Empty | hmp_murmur_hash.c:71-123 | The hash of the empty key is 0 |
| MurmurValues.Three | hmp_murmur_hash.c:71-123 | The hash of "abc" is 0xb3dd93fa |
| MurmurValues.Zeros | hmp_murmur_hash.c:71-123 | The hash of four zero bytes is 0x2362f9de |
| MurmurValues.Four | hmp_murmur_hash.c:71-123 | The hash of "test" is 0xba6bd213 |
| MurmurValues.Seven | hmp_murmur_hash.c:71-123 | The hash of the bytes 1 to 7 is 0xfc5897b5 |
| MurmurValues.Ring | hmp_murmur_hash.c:71-123 | The hash of a key of 13 bytes is 0x89722e1e |
| Murmur.StepOneToOne | hmp_murmur_hash.c:90-96 | Mixing a word is one-to-one in the state and in the word |
| Murmur.FMixOneToOne | hmp_murmur_hash.c:56-65 | The finalisation is one-to-one |
| Murmur.StatesStayApart | hmp_murmur_hash.c:86-111 | Different states stay different over the same rest of the key |
| Murmur.NoCollisionInOneWord | hmp_murmur_hash.c:71-123 | Keys of one length that differ inside one aligned word, or inside the tail, have different hashes |
| Murmur.InjectiveOnShortKeys | hmp_murmur_hash.c:71-123 | The hash is one-to-one on the keys of each length up to 4 |
| Murmur.TailKeyIsLittleEndian | hmp_murmur_hash.c:106-110 | The fall-through cases collect the little-endian tail |
| Murmur.Body | hmp_murmur_hash.c:84-97 | The loop over negative indices is the fold over the whole words, reading each byte once |
| Murmur.MurmurHash | hmp_murmur_hash.c:71-123 | The function is the fold, reading every position of the key once and no other |
| Wire.MessageParts | hmp_task.c:29-31 | The type is in the first four bytes, the data size in the next four, the data behind |
| Wire.ByteAt | hmp_transport.c:537-542 | Byte i of a number counts 256^i |
| Wire.KnownMessage | hmp_transport.c:531-543 | A first message byte by byte: type 0, size 20, address, length, key |
| Wire.TypeCodes | hmp_base.h:48-55 | The codes of the message types |
| Wire.InitMessageRead | hmp_transport.c:227-263 | What the receiver reads from its slot is what the sender registered |
| Wire.WriteMessage | hmp_task.c:29-31 | The three copies put the message at the start of the slot and change nothing behind it |
| Handshake.NextInv | hmp_transport.c:227-562 | Every step keeps: transports numbered by the other end, connected ones backed by registered values, only the sender's message under way |
| Handshake.ConnectedHoldsRegistered | hmp_transport.c:227-241 | In every run, a node connected to a peer holds the base, length and key the peer registered |
| Tables.TransportFound | hmp_node.c:87-105 | In every run, a dialling node finds its transport in the table, and an accepting one does exactly if the table is not cleared yet or no step of the run answered the request between the start of listening and the clearing |
| Tables.LostTransport | hmp_node.c:87-90 | In every cluster of two, a run that loses a transport from the table |
| Tables.NextTables | hmp_transport.c:507-518 | Every step keeps: a table holds existing transports, each at its peer's place |
| Delivery.StepConserves | hmp_transport.c:243-265 | One step neither loses nor duplicates a message |
| Delivery.OneMessage | hmp_transport.c:545-562 | In every run, each end of an answered connection has exactly one message to be sent, under way or handled |
| Delivery.MessageHasTransport | hmp_transport.c:249-264 | In every run, a message under way finds a transport of a node of the cluster |
| Delivery.ConnectedStep | hmp_transport.c:227-241 | A step connects an end exactly by handling its message and disconnects it exactly by the write of CONNECTING or an error |
| Delivery.ConnectedExactly | hmp_transport.c:786-793 | Without errors, an end whose message was handled is connected exactly if it accepts, or CONNECTING was written before, or is still to be written |
| Delivery.StuckForever | hmp_transport.c:836-847 | An end that has its message and is not connected never will be |
| Delivery.LateMark | hmp_transport.c:786-793 | In every cluster of two, a run that connects an end and loses it for ever by the late write |
| TransportStates.StateStep | hmp_transport.c:227-241 | In every reachable state: which step leaves a transport in INIT, CONNECTING, CONNECTED or ERROR, and that every other one leaves its state |
| TransportStates.FailedAfterError | hmp_transport.c:602-604 | In every run, an error puts an existing transport into the error state, until its message is handled or CONNECTING is written |
| TransportStates.StoredMemory | hmp_transport.c:227-232 | In every run, what a node has stored for itself and for each peer |
| TransportStates.Stranger | hmp_transport.c:507-519 | A request from an unknown address keeps node number 0, and its message overwrites the entry of node 0 |
| TransportStates.OtherMessage | hmp_transport.c:262-265 | A message of another type changes nothing |
| HmpNode.HmpNode.ConnectRequested | hmp_transport.c:507-527 | The search loop numbers and enters the new transport as the step system says |
| HmpNode.HmpNode.Received | hmp_transport.c:243-265 | The receive handler in place is the receive step |
| HmpNode.HmpNode.HandleMr | hmp_transport.c:227-241 | Address, length and key are stored for the peer, then the state is CONNECTED |
| HmpNode.Perform | hmp_transport.c:227-562 | A step of a cluster of node objects, by their handlers, is the step of the step system |
| HmpNode.RunAll | hmp_node.c:59-106 | After any run the objects are in the states that the step system gives |
| HmpNode.AccessAfter | hmp_mem.c:142-169 | A read or write on the objects after any run copies locally, finds no transport or is posted exactly when `RequestReachesNode` says |
| HmpNode.RequestReachesNode | hmp_mem.c:129-169 | In every run, a request is posted exactly if the transport for the node is in the table and connected, and then goes to that node, that offset, under the key it registered; it spins, is refused or finds no transport exactly in the other cases |
| HmpNode.BaseIsNotAdded | hmp_mem.c:142-169 | For every offset, a posted request reaches that place of the registered memory exactly if the memory starts at 0, and any of it exactly if the offset is an address in it |
| HmpNode.PostedAtOffset | hmp_mem.c:142-169 | In every cluster of two and for every offset, a run after which the request is posted to the bare offset |
| Startup.AllConnect | hmp_node.c:59-106 | In every cluster of any size there is a run after which both ends of every connection are connected and in the tables |
| HmpNode.AllPosted | hmp_mem.c:142-169 | After that run every node posts a request for any offset of any other node, to that node |
| HmpNode.RefusedAfterError | hmp_transport.c:836-844 | In every run, after an error a request is refused, or finds no transport, until the message is handled or CONNECTING is written |
| HmpNode.ErrorRefused | hmp_transport.c:836-844 | In every cluster of two, a run after which a request is refused |
| HmpNode.NeverPosted | hmp_transport.c:849-857 | Nothing is ever posted over an end that is stuck |
| Layout.Region.constructor | hmp_node.c:98-101 | The four slots of a peer start at its place in the pool |
| Layout.Region.RecvTask | hmp_task.c:46-49 | The slot handed out is the next of three |
| Layout.Region.PrePostRecv | hmp_transport.c:170-175 | Two receives are posted, in the first two slots, at 40 and 80 bytes behind the peer's place |
| Layout.Region.SendTask | hmp_task.c:22-24 | The message lies at the start of the send slot |
| Layout.Mempool.Malloc | hmp_mem.c:112-122 | A block behind the message slots and all earlier blocks |
| Layout.LegalInNumbers | hmp_mem.c:116 | The calls that the runs are about: known peers, at most 32 bytes of data, blocks that are not empty |
| Layout.ReceivePlaces | hmp_task.c:46-49 | In numbers: the receives of a peer use its three slots of 40 bytes in order and round again |
| Layout.OtherPlaces | hmp_mem.c:112-122 | In numbers: the send slot, the 8 bytes before the data, and the blocks one behind the other |
| Layout.RunDisjoint | hmp_mem.c:112-122 | In every run, two calls use the same memory exactly if both send to one peer, or both receive for one peer a multiple of three receives apart |
| Layout.ThreeReceivesDiffer | hmp_task.c:46-49 | Three receives in a row for one peer use different slots |
| Layout.InsidePool | hmp_mem.c:112-122 | Message slots lie inside the pool; a block does exactly if slots and allocations so far fit |
| Layout.SendFits | hmp_task.c:22-31 | A message keeps to its slot exactly if it has at most 32 bytes of data |
| Layout.Run | hmp_mem.c:112-122 | Any run on the objects hands out the stretches that the specification gives |
| Address.GlobalShift | hmp_mem.c:62-67 | In numbers: a global address is the node times 2^48 plus the offset, and is split back |
| Address.SplitBits | hmp_mem.c:129-140 | Of the 64 bits of an address the top 16 are the node and the low 48 the offset |
| Address.GlobalBits | hmp_mem.c:62-67 | The top 16 bits of a global address are its node and the low 48 its offset |
| Address.SplitGlobal | hmp_mem.c:62-67 | Splitting a global address gives back node and offset |
| Address.SplitExact | hmp_mem.c:129-140 | The assertion holds for exactly the addresses of the cluster, and nothing is lost |

## Left out

- The XML configuration and the ioctl search for the own address: input only.
- Verbs and connection-manager resources, their creation and clean-up paths, and failures of `malloc`: behaviour outside the repository.
- The epoll loop and the log: a scheduler that fires handlers stands for them.
- Completion of remote reads and the end of the spin loops: they depend on hardware; what is proved is when a state can no longer be reached.
- Disconnecting and reconnecting: local teardown calls only.
- `hmp_free`, the page array and the rounding of the pool size: an empty body, data never initialised, and plain arithmetic.
- The `hlist` half of `linux/list.h` and the iteration macros other than the two that are used: not used here.
- Moving a link after itself: the list operations do not support it.
- Messages other than the first one, and posting receives again: the repository does neither.
- Wrap-around of pointer arithmetic, of `int` lengths and of `alloc_size`: the pool is a few thousand bytes.
- Attributes of the device and completion queues: no state that the properties depend on.
- Posted receives of a transport that the lookup does not number, and their slots at address 0: configurations that match the source addresses have none.
- Handshake.NextInv: covers one process per node; calls that a second application thread makes are not steps.
- RbTree.RbRoot.RotateLeft: works on two fields instead of the packed word; `RbPacked` gives the agreement of the accessors, not a second copy of the tree code.
