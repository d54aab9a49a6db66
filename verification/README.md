# A verified model of DIET's agents and client schedulers

DIET is a grid middleware. Server daemons (SeDs) offer services to a tree of agents; a client
asks a master agent, the request travels down the tree, every agent merges the answers of its
children and the master returns the best servers. Master agents also search one another. This
project models the algorithms and protocols of that path in Dafny and proves what they promise.

| file | about |
|---|---|
| `QuickSort.dfy` | the in-place quicksort with an explicit stack (`src/agent/qsort.cc`) |
| `Selection.dfy`, `Tournament.dfy` | the merge of responses through a tournament tree, against naive selection |
| `StableMerge.dfy`, `Aggregation.dfy`, `Hierarchy.dfy` | capped aggregation, several schedulers in a row, and the whole tree of agents |
| `Estimates.dfy`, `SearchResults.dfy` | the compare functions of the schedulers and what a client gets |
| `DefaultScheduler.dfy` | the default pair of schedulers, round robin and random, at one agent and in the whole tree |
| `Serialization.dfy`, `SerializedForm.dfy` | printing and parsing of schedulers; the strings themselves and what is made of other ones |
| `FloodRequest.dfy`, `FloodNetwork.dfy` | the search over a network of master agents |
| `ServiceTree.dfy`, `ServiceOffers.dfy`, `AgentTables.dfy` | the propagation of services up the tree, against what the servers offer |
| `Gather.dfy` | the barrier that collects the children's responses |
| `AsyncCalls.dfy` | wait rules of asynchronous calls (GridRPC, GFD-R.052, "Asynchronous GridRPC Wait Functions") |
| `AccessController.dfy` | the counting semaphore that limits running jobs |
| `MultiCall.dfy`, `BurstScheduler.dfy` | schedulers on the client's side |

`dafny verify dfyconfig.toml` checks everything. Code that only compares or computes is a
function. Code that changes arrays, fields or counters is a method with loops, or a class, whose
`ensures` equate the new state with a specification function; the lemmas are about that function.
Protocols with several threads or agents are state machines: one step is one section that the
source runs under a lock, or the arrival of one message, and a run is any sequence of such steps.

Conventions: a C++ `double` is a `real`; a `size_t` in the quicksort is below 2^64; `rand()`
is modelled by giving the compare function the number of the call, so a statement about every
compare function covers every outcome; estimation vectors are maps from tag to value.
`{:induction false}` stands on the lemmas to which Dafny would apply induction by itself.

## What the proofs showed about the code

Where the code differs from its comments the model follows the code.

* `Scheduler::aggregate` never writes `lastAggr`, documented as the last index that was processed.
  Every scheduler of a `StdGS` therefore begins again with the first server of each response, and
  a server can be returned twice. `StdGSReturnsNoServerTwice` says exactly when this cannot happen:
  when the processable servers in front of the first unprocessable one of their responses are none,
  or enough to fill the answer. In `RepeatInstance` a client that asks for two servers of two gets
  the same one twice.
* With the default `StdGS` the answer of an agent always begins with the round-robin merge of the
  usable servers, and it is nothing else iff these fill it (`StdIsMerge`). Every agent of a tree
  answers with its flat top k, whatever rand() does, iff at every agent round robin fills the answer
  or finds nothing (`SettledIsExact`); when all servers are usable the client gets the best k
  (`DefaultClientGetsBest`). In general only the first server is sure to be the best one
  (`BestServerFirst`).
* The response is resized to min(total, max_srv) and not cut afterwards, so places that no pass
  fills stay blank servers (`GlobalAggregate`).
* A leaf of the tournament tree is initialised from a response without asking whether it is empty:
  responses have to be non-empty. With a single response no "undefined" check is made.
* A `max_srv` of 0 asks every agent for all servers, but `submit_local` then cuts the final list
  to 0 (`Submit`, `SubmitIsFlat`).
* A priority list is printed with sprintf into 8 bytes a value, which overruns for large tags: a
  list of one value fits iff the value lies between -999 and 9999 (`OneValueFits`,
  `PriorityOverrun`). When all schedulers fit their buffers, `StdGS::serialize` transmits the list
  iff it is shorter than 128 characters, `PriorityGS` with one scheduler iff it is shorter than 256
  (`SendStdGS`, `SendPriorityGS`). A cut is not noticed when it only takes letters of a last Rand or
  RR, since names are looked up by comparing prefixes (`ParseCut`, `CutUnseen`). The default
  schedulers always get through (`DefaultIsSent`).
* The round-robin compare function calls a server processable when it is compared with itself and
  its value is negative but not -1, and unprocessable otherwise (`RRSelfCompare`). The priority
  compare function is a preorder as long as servers define all tags or not even the first; a server
  outside of this breaks it (`PriorityLaws`, `PriorityUnlawful`).
* The loop of `deleteWaitRule` ends iff no other rule is registered for a request of the rule
  (`DeleteWaitRuleEnds`, `WakeKeepsValid`, `CallAsyncMgr.EndWait`). Two threads that wait for one
  request are enough to make it run for ever (`TwoWaitersHang`).
* A waiter that was woken because a request was cancelled still reads `STATUS_DONE` when another
  request of its rule completes before it runs and nothing else is missing (`CancelOverridden`,
  `CancelledWaitReturnsDone`).
* The number of responses an agent waits for is read from the service table after the requests
  were sent. A child that subscribed meanwhile, or one the agent does not know, is counted too, and
  then the barrier never opens; a child that left meanwhile is not counted, and then an answer hits
  the assertion in `addResponse`. When the number is 0 the empty response is returned without a wait,
  and every answer of a contacted child fails, since there is neither a count nor an array. No answer
  fails iff no more children left than joined or were unknown, and aggregation starts iff no fewer
  left and the number is not 0 (`Gather.FindServer`, `JoinedInstance`, `LeftInstance`,
  `AllLeftInstance`).
* A serialized name is compared over its own length, so the empty string begins every known name and
  hits the assertion instead of giving the default (`GlobalName`).
* The static counter of `updateCall` is never reset: one pass over the clusters hands out the names
  (`UpdateCalls.AllCalls`), a second one would read behind the vector.
* `FloodRequest::flooded` asks for all neighbours to be flooded, but a predecessor stays "already
  contacted". So an agent other than the initiator never finds its own area flooded after a wait;
  it reports that only when `floodNextStep` has nobody left to ask (`BusyLink`). The initiator
  learns of it with that delay, after 2d + 1 rounds at most (`SearchSoonOver`).

## Model

| member | source | states |
|---|---|---|
| QuickSort.GcclibQuicksort | src/agent/qsort.cc:45-204 | for every length and strict weak order the array ends up sorted and is a permutation of what it was |
| QuickSort.CoarseSort | src/agent/qsort.cc:58-148 | the partitioning phase ends, never needs more than the 64 stack entries, and leaves elements more than the threshold apart in order |
| QuickSort.SortRange | src/agent/qsort.cc:64-147 | one round keeps the pending ranges within the stack and the cuts between them, and uses up work |
| QuickSort.MedianOfThree | src/agent/qsort.cc:74-87 | lower, middle and upper element are put in order by swaps inside the range |
| QuickSort.ScanUp | src/agent/qsort.cc:96-99 | the left scan stops inside the range at the first element that is not below the pivot |
| QuickSort.ScanDown | src/agent/qsort.cc:101-104 | the right scan stops inside the range at the last element that is not above the pivot |
| QuickSort.Partition | src/agent/qsort.cc:89-120 | although the pivot element moves with the swaps, the range is split around its value into two shorter parts |
| QuickSort.NextRange | src/agent/qsort.cc:122-146 | pushing the larger part or popping leaves exactly the old pending ranges and the large parts of this one to do |
| QuickSort.Pow2Bound | src/agent/qsort.cc:40-43 | a stack whose k-th entry is at most 2^-k of the array has fewer than 64 entries |
| QuickSort.Advance | src/agent/qsort.cc:64-147 | splitting a range keeps all pending ranges disjoint, halves what is kept, and decreases the work |
| QuickSort.MinimumToFront | src/agent/qsort.cc:164-176 | the smallest element, which is among the first ones, is moved to the front: the insertion scan cannot pass it |
| QuickSort.InsertionPoint | src/agent/qsort.cc:182-186 | the unguarded scan stops after index 0 and after at most the threshold's number of steps |
| QuickSort.InsertionFinish | src/agent/qsort.cc:180-202 | insertion sort finishes, sorted, with at most threshold times length shifts |
| QuickSort.MoveDown | src/agent/qsort.cc:189-201 | moving an element down shifts the others up by one |
| Selection.BestOfTwo | src/agent/Schedulers.cc:221-291 | promoting the better of two nodes gives the leftmost best processable leaf below both, or null |
| Selection.BestIsUnique | src/agent/Schedulers.cc:147-160 | the leftmost best processable head is unique |
| Selection.NaiveSelectIsBest | src/agent/Schedulers.cc:147-160 | the naive loop over all heads finds it |
| Tournament.TreeHeight | src/agent/Schedulers.cc:302-314 | 2^pow is the least power of two that is at least the number of responses |
| Tournament.InitLeaves | src/agent/Schedulers.cc:323-331 | leaf k is the head of response k, the others are null |
| Tournament.BuildTree | src/agent/Schedulers.cc:332-339 | every node is the winner of its two children |
| Tournament.RepairPath | src/agent/Schedulers.cc:366-380 | comparing again along the path from one leaf restores every node of the tree |
| Tournament.RootIsNaiveSelect | src/agent/Schedulers.cc:147-160 | with two or more responses and a lawful compare function the root is the naive selection over all heads |
| Tournament.Replace | src/agent/Schedulers.cc:355-380 | after an emission the tree shows the next server of that response |
| Tournament.Aggregate | src/agent/Schedulers.cc:140-398 | for any compare function a pass draws prefixes of the responses, interleaved, until the room is used or, when lawful, nothing processable is in front; lawful picks are the naive ones; and the answer is extended by just these servers |
| StableMerge.MergeAllPermutes | src/agent/Schedulers.cc:147-160 | merging loses and repeats no server |
| StableMerge.MergeAllOrdered | src/agent/Schedulers.cc:147-160 | merging ordered lists gives an ordered list |
| StableMerge.Merge2Assoc | src/agent/AgentImpl.cc:737-759 | merging is associative, ties included |
| StableMerge.MergeAllAppend | src/agent/AgentImpl.cc:737-759 | merging two groups of lists and then the results is merging them all |
| StableMerge.TakeMerge2 | src/agent/GlobalSchedulers.cc:209-269 | the first k of a merge need only the first k of both sides |
| StableMerge.MergeAllStep | src/agent/Schedulers.cc:346-385 | taking the selected head is one step of the merge |
| Aggregation.GlobalAggregate | src/agent/GlobalSchedulers.cc:209-269 | with any list of schedulers the answer has min(total, max_srv) places, or all for a cap of 0, and holds the draws of the passes one after the other, then blanks |
| Aggregation.PassPositions | src/agent/Schedulers.cc:346-385 | one pass, under any compare function, draws exactly the servers before the final position in each response, and none twice |
| Aggregation.PassCount | src/agent/Schedulers.cc:346-385 | a lawful pass draws exactly the processable servers in front, up to the room there is |
| Aggregation.TwoPasses | src/agent/GlobalSchedulers.cc:242-254 | two passes repeat no server iff they draw from different responses |
| Aggregation.StdGSReturnsNoServerTwice | src/agent/GlobalSchedulers.cc:288-295 | a round-robin pass followed by a random one repeats no server, however rand() answers, iff the first found nothing or filled the answer; a single response fills it iff it is long enough |
| Aggregation.RepeatedServer | src/agent/Schedulers.cc:127-146 | otherwise some outcome of rand() repeats a server, since the last processed indices are not kept |
| Hierarchy.OnPositionsLawful | src/agent/Schedulers.cc:221-291 | a lawful compare function on servers is lawful on positions in the responses |
| Hierarchy.PassIsMerge | src/agent/Schedulers.cc:140-398 | a pass is the stable merge of the usable fronts of the responses, cut at the room there is |
| Hierarchy.AggregateOnce | src/agent/GlobalSchedulers.cc:209-269 | run with one lawful scheduler, as a PriorityGS is, aggregation returns that merge followed by blanks |
| Hierarchy.AggregatedFront | src/agent/AgentImpl.cc:737-759 | blanks and cuts do not disturb what the next agent up can use of an answer |
| Hierarchy.TopK | src/agent/LocalAgentImpl.cc:374-412 | with one lawful scheduler: the usable servers of an agent's answer, under any tree of agents below it, are the first k of one flat merge of all servers' lists |
| Hierarchy.TopKForest | src/agent/AgentImpl.cc:391-521 | the same for the answers of all children together |
| Hierarchy.SubmitIsFlat | src/agent/MasterAgentImpl.cc:309-376 | with one lawful scheduler the client sees the first max_srv servers of the flat merge, none for 0 |
| Hierarchy.AnswerNonEmpty | src/agent/Schedulers.cc:323-331 | where every daemon lists a server and every agent has a child no answer is empty, as the leaves of the tournament tree need it |
| Estimates.PriorityCompareLoop | src/agent/Schedulers.cc:807-872 | the loop over signed tags decides lexicographically |
| Estimates.RRMeaning | src/agent/Schedulers.cc:516-564 | the server with the larger time since its last solve is better, equal times are equal, a known time beats an unknown or negative one |
| Estimates.MinMeaning | src/agent/Schedulers.cc:619-659 | the smaller value is better, any value beats none, and none on both sides is undefined |
| Estimates.MaxMeaning | src/agent/Schedulers.cc:713-753 | the larger value is better, any value beats none, and none on both sides is undefined |
| Estimates.PriorityMeaning | src/agent/Schedulers.cc:807-872 | a server is better iff at some place of the list it has the better value for the tag's sign, or the only one, and all tags before tie; equal iff all tie |
| Estimates.MinLaws | src/agent/Schedulers.cc:619-659 | the Min compare function is a total preorder on processable servers, undefined iff neither is processable |
| Estimates.MaxLaws | src/agent/Schedulers.cc:713-753 | the same for Max |
| Estimates.RRLaws | src/agent/Schedulers.cc:516-564 | the same for round robin on -1 and non-negative values |
| Estimates.RRSelfCompare | src/agent/Schedulers.cc:524-533 | comparing a server with itself agrees with comparing it with an equal one iff its value is -1 or not negative |
| Estimates.PriorityLaws | src/agent/Schedulers.cc:807-872 | the Priority compare function is lawful on servers that define all tags or lack the first |
| Estimates.PriorityUnlawful | src/agent/Schedulers.cc:807-872 | any other server breaks the laws together with a server that defines the same tags |
| SearchResults.ClientGetsBest | src/agent/MasterAgentImpl.cc:309-376 | with one lawful scheduler: when the servers' lists are ordered the client gets the best k of all servers in the tree, in order, and no server left out is better |
| SearchResults.PriorityClient | src/agent/Schedulers.cc:807-872 | this holds for the priority scheduler and any list of signed tags: no server received later, and none left out, has a better value at the first tag where it differs |
| SearchResults.RRAgrees | src/agent/Schedulers.cc:516-564 | on its values round robin on positions, its self-comparison included, gives the verdicts of a compare function on servers |
| DefaultScheduler.AggregateDefault | src/agent/GlobalSchedulers.cc:209-295 | run with the two schedulers of StdGS, aggregation returns an answer that begins with the round-robin merge of the usable fronts, and that is just this merge iff they fill it |
| DefaultScheduler.StdPrefix | src/agent/GlobalSchedulers.cc:209-295 | for any second compare function: the merge of the usable fronts, then what the second pass draws from the first servers on, then blanks |
| DefaultScheduler.RandFills | src/agent/Schedulers.cc:452-460 | a second scheduler that always decides leaves no place blank |
| DefaultScheduler.StdIsMerge | src/agent/GlobalSchedulers.cc:288-295 | the answer has min(total, max_srv) servers, all of them listed ones, and it is the round-robin merge iff there is one response or the usable fronts hold that many |
| DefaultScheduler.NoRepeatIffFull | src/agent/GlobalSchedulers.cc:288-295 | the default scheduler can return a server twice iff round robin finds some servers but not enough |
| DefaultScheduler.RepeatInstance | src/agent/MasterAgentImpl.cc:309-376 | a client asks for two of two servers, of which one knows no time, and gets the other one twice, while the flat top two is that one alone |
| DefaultScheduler.AnswersAreListed | src/agent/LocalAgentImpl.cc:374-412 | in any tree and for any rand(): every place of an answer holds a server that a daemon below listed, and every agent fills min(received, k) places |
| DefaultScheduler.FilledIsRoundRobin | src/agent/LocalAgentImpl.cc:374-412 | where round robin fills the answer at every agent, the tree has one answer only, that of round robin alone |
| DefaultScheduler.DefaultTopK | src/agent/LocalAgentImpl.cc:374-412 | where round robin fills the answer or finds nothing at every agent, hierarchical top-k is flat top-k for StdGS too |
| DefaultScheduler.SettledFront | src/agent/GlobalSchedulers.cc:209-269 | there rand() decides about unusable servers only |
| DefaultScheduler.SettledIsExact | src/agent/LocalAgentImpl.cc:374-412 | and only there: all agents of a tree always answer with their flat top k iff at every agent round robin fills the answer or finds nothing |
| DefaultScheduler.WrongOutcome | src/agent/GlobalSchedulers.cc:209-269 | an agent where round robin finds some servers but not enough has an outcome with too many usable servers |
| DefaultScheduler.DefaultSubmitIsFlat | src/agent/MasterAgentImpl.cc:309-376 | where every agent is filled or finds nothing the client sees the first max_srv usable servers of the flat merge; where every agent is filled it gets just the list of round robin alone |
| DefaultScheduler.UsableFills | src/agent/Schedulers.cc:516-564 | it is so at every agent when every listed server knows the time of its last job |
| DefaultScheduler.DefaultClientGetsBest | src/agent/MasterAgentImpl.cc:309-376 | when the daemons list their servers by falling time since the last solve, the client of the default scheduler gets the k largest times of the whole tree, falling, and the smaller ones are left out, whatever rand() answers |
| DefaultScheduler.BestServerFirst | src/agent/LocalAgentImpl.cc:374-412 | with no demand on the servers: the first usable server of an answer is the best of all that the daemons below offer in front |
| DefaultScheduler.Ask | src/agent/AgentImpl.cc:391-521 | sending a request down the tree and aggregating on the way up gives one of the answers these are about |
| Serialization.ScanPrinted | src/agent/Schedulers.cc:690-703 | reading a printed signed number gives it back and stops behind it |
| Serialization.PrintPriority | src/agent/Schedulers.cc:897-911 | the loop prints the number of values and the values; it stays inside its buffer iff the text and its terminator fit the name's length and 8 bytes a value |
| Serialization.PrintScheduler | src/agent/Schedulers.cc:63-81 | each scheduler prints its form iff that fits the buffer of its serialize |
| Serialization.OneValueFits | src/agent/Schedulers.cc:897-911 | a list of one value fits iff the value lies between -999 and 9999 |
| Serialization.TagsFit | src/agent/Schedulers.cc:690-703 | Min and Max fit for every tag of type int |
| Serialization.PriorityOverrun | src/agent/Schedulers.cc:897-911 | the list of the one value -1000 overruns its buffer, although the whole string has 36 characters |
| Serialization.ParsePrinted | src/agent/Schedulers.cc:86-119 | every RR, Rand, Min, Max and Priority scheduler is read back from its printed form, although names are looked up by comparing prefixes |
| Serialization.ParsePrintedPriority | src/agent/Schedulers.cc:913-956 | the values of a priority list come back in order and with their signs |
| Serialization.SplitJoined | src/agent/GlobalSchedulers.cc:297-318 | splitting at ':' gives the printed schedulers back |
| Serialization.Serialize | src/agent/GlobalSchedulers.cc:320-348 | it succeeds iff every scheduler fits its own buffer, and then the printing loop with its growing buffer leaves the full string, cut at 127 characters, or at 255 for a PriorityGS with one scheduler |
| Serialization.DeserializeFull | src/agent/GlobalSchedulers.cc:61-109 | any list of schedulers is read back from its full string, for both global schedulers |
| Serialization.SendStdGS | src/agent/GlobalSchedulers.cc:297-348 | a StdGS is transmitted whole iff every scheduler fits its own buffer and the string is shorter than 128; the other side receives the same schedulers iff it is so or the cut is unseen |
| Serialization.SendPriorityGS | src/agent/GlobalSchedulers.cc:384-441 | a PriorityGS with one scheduler is transmitted whole, and received as it was, iff the list fits its own buffer and the string is shorter than 256 |
| Serialization.ParseCut | src/agent/Schedulers.cc:86-119 | a printed scheduler that lost characters at its end is read back iff it is a Rand, or an RR with two letters left |
| Serialization.StdGSCut | src/agent/GlobalSchedulers.cc:297-348 | a StdGS cut at 127 characters is read back iff the cut only takes letters of a last Rand, or of a last RR all but two |
| Serialization.DefaultIsSent | src/agent/GlobalSchedulers.cc:288-295 | the schedulers of StdGS::init always fit |
| SerializedForm.DefaultForm | src/agent/GlobalSchedulers.cc:276-348 | the default scheduler is the string StdGS:RRScheduler:RandScheduler |
| SerializedForm.PriorityForm | src/agent/Schedulers.cc:897-911 | a priority list is its name, the number of values and the values, separated by commas; Min and Max are name and tag |
| SerializedForm.GlobalName | src/agent/GlobalSchedulers.cc:61-109 | a name that begins neither known one gives the default list RR, Rand; the beginning of one, the empty name included, hits the assertion; a whole one is read iff its schedulers are |
| SerializedForm.UnknownScheduler | src/agent/Schedulers.cc:86-119 | a scheduler name that begins none of the known ones gives Rand |
| SerializedForm.NoParameters | src/agent/Schedulers.cc:500-610 | RR and Rand are read iff nothing follows the name |
| SerializedForm.OneTag | src/agent/Schedulers.cc:690-705 | Min and Max are read iff one number that is not negative follows the name, and nothing behind it |
| SerializedForm.CountDecides | src/agent/Schedulers.cc:913-956 | as many of the values are read as the count says, and it fails iff the count is not positive or there are fewer |
| FloodRequestState.FloodRequest.constructor | src/agent/FloodRequest.cc:50-73 | neighbours are not contacted yet, except the predecessor |
| FloodRequestState.FloodRequest.FloodNextStep | src/agent/FloodRequest.cc:115-154 | contacts the new neighbours and those still flooding that can be reached; the count is the number of neighbours flooding; each neighbour is sent searchService at most once in all; true iff none was flooding and no new one could be reached |
| FloodRequestState.StepContactsAll | src/agent/FloodRequest.cc:115-154 | after a step no neighbour is left uncontacted, those flooding are the reachable new and old ones, the unreachable ones of these are flooded, and those contacted elsewhere stay so |
| FloodRequestState.NobodyReachable | src/agent/FloodRequest.cc:98-154 | after a step that reached nobody the request is flooded, unless a neighbour was contacted elsewhere |
| FloodRequestState.FloodRequest.IsFloodedNow | src/agent/FloodRequest.cc:98-112 | true at eight hops or when all neighbours are flooded |
| FloodRequestState.FloodRequest.AddNewResponse | src/agent/FloodRequest.cc:22-28 | counts a response and wakes the waiter at the last one |
| FloodRequestState.FloodRequest.AddResponseNotFound | src/agent/FloodRequest.cc:202-205 | counts the response and changes no neighbour |
| FloodRequestState.FloodRequest.AddResponseFloodedArea | src/agent/FloodRequest.cc:208-217 | marks the sender flooded and counts the response |
| FloodRequestState.FloodRequest.AddResponseAlreadyContacted | src/agent/FloodRequest.cc:220-229 | marks the sender already contacted and counts the response |
| FloodRequestState.FloodRequest.AddResponseServiceFound | src/agent/FloodRequest.cc:232-247 | appends the servers, so that all servers received are those handed out and then those pending, in order |
| FloodRequestState.FloodRequest.GetDecision | src/agent/FloodRequest.cc:168-174 | hands out the pending servers, each once |
| FloodRequestState.FloodRequest.StopFlooding | src/agent/FloodRequest.cc:177-199 | tells all contacted neighbours that are not elsewhere in the tree and gives up a waiting round |
| FloodNetwork.StepKeepsInv | src/agent/MasterAgentImpl.cc:496-683 | every round start, arrival of a question or an answer and end of a wait keeps the invariant: neighbours' states, messages under way, counters, tree and servers agree |
| FloodNetwork.StartRoundKeeps | src/agent/MasterAgentImpl.cc:242-262 | the next round of submit keeps the tree consistent |
| FloodNetwork.SearchKeeps | src/agent/MasterAgentImpl.cc:496-547 | searchService adds an agent at its distance, or answers that it was contacted already |
| FloodNetwork.ContinueKeeps | src/agent/MasterAgentImpl.cc:590-601 | newFlood keeps the hops of an agent one behind those of its predecessor |
| FloodNetwork.EndWaitKeeps | src/agent/MasterAgentImpl.cc:602-625 | reporting to the predecessor after the wait keeps the tree consistent |
| FloodNetwork.AnswerKeeps | src/agent/MasterAgentImpl.cc:572-587 | so does taking in an answer |
| FloodNetwork.RunKeepsInv | src/agent/MasterAgentImpl.cc:242-284 | the invariant holds in every state of every run |
| FloodNetwork.RoundsSearchExactly | src/agent/MasterAgentImpl.cc:242-284 | after r rounds submit_local has run exactly once at each agent at distance 1 to r and nowhere else |
| FloodNetwork.SearchedAtMostOnce | src/agent/MasterAgentImpl.cc:516-537 | at any moment it has run at most once anywhere, and searchService is never sent to the initiator |
| FloodNetwork.PredecessorsLeadToInitiator | src/agent/MasterAgentImpl.cc:530-533 | predecessor links form a tree rooted at the initiator along shortest paths |
| FloodNetwork.StopReachesOnce | src/agent/MasterAgentImpl.cc:558-569 | stopFlooding reaches each contacted agent from its predecessor and from nobody else |
| FloodNetwork.NearestServers | src/agent/MasterAgentImpl.cc:242-276 | a round collects the servers of all agents at the least distance that has any, each once |
| FloodNetwork.StopsWithGoodReason | src/agent/MasterAgentImpl.cc:255-257 | a search ends without servers only at eight rounds, when nobody within distance eight has any, or when nobody reachable has any |
| FloodNetwork.FindsNearest | src/agent/MasterAgentImpl.cc:242-276 | when somebody within distance eight offers the service, a search with no further round to start has collected exactly the offering agents at the least distance, each once |
| FloodNetwork.SearchSoonOver | src/agent/MasterAgentImpl.cc:572-625 | in a network of radius d a search starts at most 2d + 1 rounds, and never more than eight |
| FloodNetwork.SomethingToDo | src/agent/FloodRequest.cc:22-28 | while an agent waits some message can arrive or some wait end: no deadlock |
| FloodNetwork.RoundStepsEnd | src/agent/MasterAgentImpl.cc:242-284 | every step of a round decreases a bounded measure |
| FloodNetwork.RoundsAreFinite | src/agent/MasterAgentImpl.cc:242-284 | so the part of a run between two round starts has a bounded length |
| FloodNetwork.SendsFindLinkFree | src/agent/FloodRequest.cc:123-151 | a message is never put on a link that still carries one |
| ServiceTree.AddKeeps | src/agent/LocalAgentImpl.cc:292-329 | adding services to one child keeps every parent's table right, and changes only that child's entries here |
| ServiceTree.SubscribeKeeps | src/agent/AgentImpl.cc:160-187 | a new child gets a new number and its services are listed under it |
| ServiceTree.RemoveKeeps | src/agent/LocalAgentImpl.cc:354-371 | removing a service is passed on exactly when no child offers it any more |
| ServiceTree.UnsubscribeKeeps | src/agent/LocalAgentImpl.cc:333-348 | so is the removal of all services of a child |
| ServiceTree.DisconnectKeeps | src/agent/LocalAgentImpl.cc:38-81 | after disconnecting the former parent lists nothing under the old number, and all other entries but those of agents are as before |
| ServiceTree.BindKeeps | src/agent/LocalAgentImpl.cc:84-178 | rebinding moves the services of the whole subtree to the new ancestors, and the former parent lists nothing under the old number |
| ServiceTree.StepKeepsValid | src/agent/LocalAgentImpl.cc:38-371 | every step keeps the tables of all agents consistent and the agents a forest |
| ServiceTree.RunKeepsValid | src/agent/LocalAgentImpl.cc:38-371 | so they are in every state of every run |
| ServiceTree.VisibleUpTheTree | src/agent/LocalAgentImpl.cc:292-329 | a service offered at an agent is listed by every ancestor under the number of the next agent below |
| ServiceTree.ListedIsServed | src/agent/LocalAgentImpl.cc:333-371 | a listed service stands at some agent below under a number that belongs to no agent |
| ServiceOffers.StepMatches | src/agent/LocalAgentImpl.cc:38-371 | a step keeps the entries that belong to no agent equal to the offers that servers have made and not withdrawn |
| ServiceOffers.RunMatches | src/agent/LocalAgentImpl.cc:38-371 | so they are in every state of every run, rebinding included |
| ServiceOffers.ListsExactly | src/agent/LocalAgentImpl.cc:292-371 | in every state of every run an agent lists a service iff a server at it or below it has offered it and not withdrawn it |
| AgentTables.Agents.AddServices | src/agent/LocalAgentImpl.cc:292-329 | the method, with its subscription of the complete table or its call to the parent, has the specified effect |
| AgentTables.Agents.AgentSubscribe | src/agent/AgentImpl.cc:160-187 | the same for subscribing, which returns the child's number |
| AgentTables.Agents.ChildRemoveService | src/agent/LocalAgentImpl.cc:354-371 | the same for removing one service; it succeeds iff the service is listed here and at every ancestor that is told to remove it |
| AgentTables.RemovalSucceeds | src/agent/LocalAgentImpl.cc:354-371 | in consistent tables that is so for every listed service |
| AgentTables.Agents.ChildUnsubscribe | src/agent/LocalAgentImpl.cc:333-348 | the same for the loops of unsubscribing |
| AgentTables.Agents.Disconnect | src/agent/LocalAgentImpl.cc:38-81 | the same for disconnecting |
| AgentTables.Agents.BindParent | src/agent/LocalAgentImpl.cc:84-178 | the same for binding to a parent; an agent cannot be bound to itself |
| Gather.Request.Scatter | src/agent/AgentImpl.cc:428-459 | the number waited for is the number of children contacted, plus those that joined and those unknown, minus those that left meanwhile |
| Gather.Request.WaitResponses | src/agent/Request.cc:99-107 | the array exists before the lock is given up and the first response can be stored |
| Gather.Request.AddResponse | src/agent/Request.cc:110-117 | each response fills a slot of its own, from the end; it fails iff as many came as are waited for, which before or without a wait is none |
| Gather.Request.GetResponses | src/agent/Request.cc:120-123 | after the signal all slots are filled, in reverse order of arrival |
| Gather.Request.CollectAll | src/agent/Request.cc:110-117 | when all contacted children answer, in any order, some answer fails iff more were contacted than are waited for, and a barrier that is waited at opens iff at least as many were |
| Gather.Request.BarrierOpens | src/agent/AgentImpl.cc:502-511 | with every contacted child answering once, aggregation starts iff their number was waited for, and then on all responses in reverse order of arrival |
| Gather.FindServer | src/agent/AgentImpl.cc:391-521 | no answer of a contacted child fails iff no more children left than joined or were unknown; aggregation starts iff no fewer left and somebody is waited for, on the first responses in reverse order; with nobody to wait for the empty response is returned |
| Gather.JoinedInstance | src/agent/AgentImpl.cc:440-459 | one child is asked, another one subscribes: the barrier stays shut |
| Gather.LeftInstance | src/agent/AgentImpl.cc:440-459 | two children are asked, one leaves: one answer is aggregated, the other hits the assertion |
| Gather.AllLeftInstance | src/agent/AgentImpl.cc:488-499 | the only child leaves after it was asked: the empty response is returned at once and the child's answer fails, whatever the uninitialised count is |
| AsyncCalls.AddCallKeepsValid | src/client/CallAsyncMgr.cc:48-68 | a new request disturbs no rule |
| AsyncCalls.AddRuleKeepsValid | src/client/CallAsyncMgr.cc:262-307 | a rule that is answered at once is satisfied or names an unknown request; one that blocks is unsatisfied and all its requests count it |
| AsyncCalls.ReadyMeansSatisfied | src/client/CallAsyncMgr.cc:272-298 | the flags of the checking loop mean that the rule is satisfied |
| AsyncCalls.NotifyKeepsValid | src/client/CallAsyncMgr.cc:399-482 | no lost wake-up: after a completion every rule that was not posted is unsatisfied |
| AsyncCalls.DoneMeansPlenty | src/client/CallAsyncMgr.cc:415-470 | a rule is posted as done iff it mentions the request and no registered request of a strict rule is unfinished |
| AsyncCalls.CancelWakesAll | src/client/CallAsyncMgr.cc:101-136 | cancelling a request posts every rule that mentions it, and a waiter that was not posted yet reads the cancellation |
| AsyncCalls.CancelOverridden | src/client/CallAsyncMgr.cc:399-482 | a later completion overwrites the cancellation iff nothing else is missing for the rule |
| AsyncCalls.CancelledWaitReturnsDone | src/client/CallAsyncMgr.cc:308-336 | an instance in which a cancelled wait returns done |
| AsyncCalls.DeleteWaitRuleEnds | src/client/CallAsyncMgr.cc:343-375 | removing a rule's entries ends iff no other rule is about one of its requests, and then removes just these |
| AsyncCalls.TwoWaitersHang | src/client/CallAsyncMgr.cc:308-375 | two rules about one request: its completion wakes both and neither can remove its entries |
| AsyncCalls.WakeKeepsValid | src/client/CallAsyncMgr.cc:308-313 | waking up ends iff no other rule shares a request, keeps the invariant and returns done or cancelled |
| AsyncCalls.RunKeepsValid | src/client/CallAsyncMgr.cc:48-482 | the invariant holds in every state of every run of registering, waiting, waking, completing and cancelling |
| AsyncCalls.NoLostWakeUp | src/client/CallAsyncMgr.cc:399-482 | so at every moment of every run a registered rule that is satisfied, or names a request that is gone, has been posted as done or cancelled |
| AsyncCalls.NotifyCompletes | src/client/CallAsyncMgr.cc:410-424 | a completed request is done, whether a rule is about it or not; its uses and all other requests stay as they were |
| AsyncCalls.WaitCounts | src/client/CallAsyncMgr.cc:272-295 | a wait counts one use for each mention of a request in front of the first unknown one, and changes no status |
| AsyncCalls.RequestsFollowTheRun | src/client/CallAsyncMgr.cc:48-482 | in every state of every run the registered requests are those registered and not cancelled since, and the done ones those completed and not cancelled since |
| AsyncCalls.NoWaitAfterCompletion | src/client/CallAsyncMgr.cc:262-307 | a wait for requests that have completed, all of them or one for OR and ANY, is answered with done at once |
| AsyncCalls.PostedStays | src/client/CallAsyncMgr.cc:308-313 | and stays posted until its waiter passes |
| AsyncCalls.CheckElements | src/client/CallAsyncMgr.cc:272-295 | the loop stops at the first unknown request, counts one use more for the others, and decides whether there is nothing to wait for |
| AsyncCalls.CallAsyncMgr.AddAsyncCall | src/client/CallAsyncMgr.cc:48-68 | the section has the specified effect |
| AsyncCalls.CallAsyncMgr.AddWaitRule | src/client/CallAsyncMgr.cc:262-307 | so has the first section of waiting |
| AsyncCalls.CallAsyncMgr.NotifyRst | src/client/CallAsyncMgr.cc:399-482 | so has the notification; the request is done before any rule is looked for; it returns -1 for an unknown request and 1 when no rule is about this or a later one |
| AsyncCalls.CallAsyncMgr.DeleteAsyncCallWithoutLock | src/client/CallAsyncMgr.cc:101-136 | so has the cancellation, which returns the number of rules about the request |
| AsyncCalls.CallAsyncMgr.EndWait | src/client/CallAsyncMgr.cc:308-375 | so has the second section of waiting; it never ends iff another rule shares a request |
| AsyncCalls.CallAsyncMgr.Release | src/client/CallAsyncMgr.cc:527-542 | no request is left and no rule stays blocked |
| AccessController.Controller.constructor | src/utils/AccessController.cc:30-46 | a negative number of resources counts as none |
| AccessController.Controller.Enqueue | src/utils/AccessController.cc:52-55 | counts one thread waiting, under a new number |
| AccessController.Controller.SemaphoreWait | src/utils/AccessController.cc:65 | lets a thread pass while the semaphore is positive |
| AccessController.Controller.Diagnose | src/utils/AccessController.cc:73-89 | the "confusion" and "unexplained" messages cannot be reached |
| AccessController.Controller.Dequeue | src/utils/AccessController.cc:91-97 | counts the thread as admitted |
| AccessController.Controller.CountRelease | src/utils/AccessController.cc:110-112 | counts a slot as free before it is posted |
| AccessController.Controller.SemaphorePost | src/utils/AccessController.cc:121 | posts it |
| AccessController.Controller.HoldersBounded | src/utils/AccessController.cc:48-122 | in every schedule the holders never exceed the resources, and the free count lies between 0 and that number |
| MultiCall.CerfacsSchedule | src/client/MultiCall.cc:36-67 | assigns all scenarios; with non-decreasing estimates no distribution of as many has a smaller maximum, and no scenario would end sooner elsewhere, or as soon on a cluster listed before |
| MultiCall.GreedyStep | src/client/MultiCall.cc:51-65 | giving the next scenario to the cluster where it ends first keeps the distribution optimal |
| MultiCall.CheapestCluster | src/client/MultiCall.cc:52-63 | the inner loop finds the first cluster with the least estimate |
| MultiCall.CostRounds | src/client/MultiCall.cc:54-57 | the cost of one scenario more than n is the estimate of tag 30 + n without its fraction, or 0 when it is missing |
| MultiCall.NobodyEndsEarlier | src/client/MultiCall.cc:36-67 | in the estimates themselves, tag 30 for one scenario and so on: under any other distribution some cluster ends as late as any cluster does under the schedule |
| MultiCall.NowhereSooner | src/client/MultiCall.cc:52-63 | the last scenario of a cluster ends no later than as the next one anywhere else, and sooner than on a cluster listed before |
| MultiCall.OneScenarioInstance | src/client/MultiCall.cc:36-67 | one scenario goes to the cluster that does one sooner, though it would be the later one with two |
| MultiCall.UpdateCalls.UpdateCall | src/client/MultiCall.cc:69-140 | the names saved between the calls are those not handed out yet, and a call hands out the next ones, as many as its cluster was assigned |
| MultiCall.UpdateCalls.AllCalls | src/client/DIETCall.cc:305-308 | the loop over all clusters sends each the chunk of names of its share, and together they are the first names in order, each once; the counter ends behind the vector |
| MultiCall.TakeNames | src/client/MultiCall.cc:102-122 | the next n names and the others, each list joined again |
| MultiCall.TwoNames | src/client/MultiCall.cc:77-120 | names are separated by # |
| MultiCall.ChunksCover | src/client/MultiCall.cc:69-140 | these chunks have the assigned sizes and together are the first names, each once and in order |
| BurstScheduler.Burst.BurstRequest | src/client/SpecificClientScheduler.cc:86-154 | after a response the known daemons are those of the response, without repetition and with aligned counters that differ by at most one; the least used is chosen, the first of them |
| BurstScheduler.Burst.RemoveObsolete | src/client/SpecificClientScheduler.cc:97-117 | erasing while iterating keeps exactly the daemons of the response, with their counters |
| BurstScheduler.Burst.AddNew | src/client/SpecificClientScheduler.cc:119-133 | new daemons are appended once, with the minimum as counter |
| BurstScheduler.NewcomersInOrder | src/client/SpecificClientScheduler.cc:119-133 | new daemons come in the order in which the response names them first |
| BurstScheduler.KeptInOrder | src/client/SpecificClientScheduler.cc:97-117 | the daemons that stay keep their order |
| BurstScheduler.Burst.LeastUsed | src/client/SpecificClientScheduler.cc:135-148 | the first daemon with the smallest counter |
| BurstScheduler.BalancedSpread | src/client/SpecificClientScheduler.cc:86-154 | counters that are the minimum or one more differ by at most one |

## Left out

- CORBA, naming, forwarders, data transfers, logging and statistics: calls are messages or direct steps.
- UserScheduler, random_permute, estimation gathering and the estimation cache.
- burstLimitRequest, deleteAllAsyncCall and the HAVE_MULTICALL counters of the call manager: addWaitAllRule and addWaitAnyRule only build rules that the model has.
- The 5-second limit of FloodRequest::waitResponses, failures of master agents during a search and the retry counter of FloodRequestsList::get: an agent waits until it has all answers, and `get` until the entry is there.
- FloodNetwork.StepKeepsInv: does not model two searches with one request id; ids are counters of each agent, and reqIdList does not tell initiators apart.
- FloodNetwork.NearestServers: names servers by the agent whose submit_local found them; one agent's servers stay together.
- The handlers of MasterAgentImpl are steps on values, not methods of an object; the per-request object they use is the class FloodRequest. Sharing of that object between threads is the token of FloodRequestsList, so a handler is one step.
- ServiceTree.StepKeepsValid: does not model failing children and simultaneous calls; an agent is never bound below itself, where the source would call itself for ever. The agents are one object with a map instead of linked objects.
- SerializedForm.GlobalName: is about a build without USERSCHED, where a third name is known.
- Gather.Request.Scatter: does not model the variant HAVE_ALT_BATCH, nor the removal of a whole service that is not the last one of the table during the sends, after which the slot read for the count belongs to another service.
- Gather.Request.CollectAll: does not model answers that come when the request is off the list already; they are only reported.
- AgentTables.Agents.BindParent: does not model binding an agent below itself, which the source accepts and which makes the agents call each other for ever.
- Tournament.InitLeaves: requires a server behind the last processed one in every response; the source does not test for it and reads past the end of the response. `AnswerNonEmpty` says when the agents meet this.
- Tournament.Aggregate: requires the same of its responses.
- DefaultScheduler.Ask: uses one rand() for all agents; the lemmas let every agent have its own. All agents run the default scheduler.
- Tournament.BuildTree: uses one rectangular array for the levels instead of an array of arrays.
- QuickSort.GcclibQuicksort: takes an abstract order; the compare callback of the source has an older signature. Elements are moved whole, not byte by byte.
- Serialization.SendPriorityGS: covers the one scheduler that agents put there; for longer lists only strings below 128 are stated. The seed of the random scheduler, which is not printed, is not modelled. Numbers are integers of any width, and what an overrun of a buffer does is not modelled beyond its being a failure.
- AccessController.Controller.HoldersBounded: does not model overflow of the request counter.
- Memory management, spurious wake-ups and real time.
