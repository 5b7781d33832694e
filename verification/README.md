# Verified kernels of an HTTP gateway

This project models the algorithmic core of Couper, an HTTP gateway, in Dafny, and proves what the rest
of the gateway relies on.

- **Sequence engine.** References between the requests and proxies of an endpoint become a graph of
  items (`ItemLinks`, `Sequence`, `ItemBuilding`, `EndpointItems`), which is listed depth first
  (`DepthFirst`). For each request one goroutine per item reads one-slot channels, runs its producer or
  passes on an error, and fills its output channels. `DependencyMarks` tells each producer what it
  depends on, `Wiring` and `EndpointChannels` build the channels, `EndpointSetup` puts the parts
  together, and `Dataflow` runs the goroutines as steps that interleave in any order.
  `DataflowInvariant` and `DataflowRuns` hold what every step keeps, `DataflowEnds` shows that runs
  end, `DataflowResults` what is read, and `DataflowRaces` exactly when that depends on the order.
  `RaceExample` is an endpoint where it does.
- **Backend order.** `BackendOrder` orders the backends so that referenced ones come first.
- **Granted permissions.** `Permissions` closes the permissions of a token under a map that may have
  cycles.
- **Rate limits.** `RateLimits` and `RateLimitRuns` are the admission loop over all runs,
  `RateLimitPairs` two sliding windows of which the second may wait; `RingBuffers` and `Limiters` are
  the objects that implement the loop in place.
- **Expiring store and token.** `MemoryStores` is the store with its collector, `TokenProtocol` the
  double-checked token request of many callers.
- **Responses and routes.** `GzipWriters` and `GzipResponses` are the compressing writer, `PathOrder`
  the order of route patterns.

`Graphs`, `Text`, `Sorting`, `Collections`, `Options` and `Periods` hold what these share.

## How the model is built

Code that changes objects in place is a class or a method, proved equal to a function of the old state;
the theorems are about these functions. An object is shown by a value: `Mirrors(l, reg)` and `Shows(g,
reg)` say that the items in `reg` hold the links `l`, or the graph `g`; `View()` is the value of a
limit, of the channel maps or of the response writer. Loops with a heavy body have the body in a method
of its own. The iteration order of a Go map is any order of its keys; where the source sorts them,
there is one order. A panic that the caller recovers from is an error result. Times are whole
nanoseconds, or whole seconds in the store, and are passed in; clocks do not run backwards and timers
do not fire early.

Theorems that are stated with a function of the program, such as splitting, trimming, the kinds of an
error or the wait of a limit, stand beside laws that say what this function means for its caller.

A goroutine of the engine makes one step per receive, look at an error, rewrite of an error, run of the
producer, or send. Looking reads the error of the shared result twice in the code; as an error never
becomes nil again, one step is enough. Results are named after the goroutine that made them, so that
two names are two results. Goroutines may start at any time.

The callers of the token request share nothing but the store and the mutex, so each is a state machine
too, whose moves interleave in any order.

A recursive walk over items takes the graph as a ghost argument. `markDependencies`, which runs when an
endpoint is set up, does not remember where it has been; the number of nested calls that the stack
allows is an argument of the model, and a larger stack changes nothing about a walk that ends. When it
has ended, the graph has no cycle, and the recursion of `fillChannels` goes down in rank. The walk
panics at an item that refers to others but has no producer; configuration does not yield such items,
as references are read from the bodies of the producers.

## Findings

These are places where the code does not do what its documentation or its names suggest. The model
follows the code.

- `handler/endpoint.go:281-284` wraps an error that is not of Couper's own type by passing on a nil
  `*Error` in an interface. The kinds of the new error cannot be read (`errors/error.go:68-76`), so the
  next goroutine that looks at it panics. When several items wait for the same failing item, it then
  depends on the schedule who panics and what the endpoint returns. `RaceExample.ResultsDiffer` is such
  an endpoint with two runs that end differently, and `DataflowRaces.SameErrorIffClean` gives the exact
  condition; `DataflowRaces.ProduceSameIff` gives that for the error which `produce` picks among those
  of all roots. It does not occur with errors of Couper's own type
  (`DataflowResults.OwnErrorsAreClean`), but a panic in a producer always makes a foreign error.
- Nothing checks that a referenced item has a producer. A root that has to wait for such an item hangs,
  and the request with it; `DataflowEnds.AllReadIff` is exact.
- `config/sequence/sequence.go:27-63` looks for a cycle along the latest parent only.
  `ItemLinks.MissedCycle` and `EndpointItems.LoadableCycle` are cycles that are accepted;
  `ItemLinks.AcceptedIffParentsAcyclic` says exactly which calls are accepted. With an accepted cycle,
  some root has dependency paths of every length (`EndpointItems.AcceptedCycleIsEndless`), and
  `markDependencies` (`config/runtime/endpoint.go:206-220`) does not end when the endpoint is set up:
  every stack is too small, and this exactly if there is a cycle (`DependencyMarks.EndsIff`). For
  backends it depends on the iteration order of a map whether a cycle is accepted
  (`BackendOrder.OrderDecides`).
- `handler/ratelimit/limiter.go:103-109` keeps the mutex when a waiting request is cancelled. After any
  run of any limiter, a request can still be admitted exactly if no request of the run was cancelled
  while it was waiting, and otherwise none is handled in any way (`RateLimitRuns.HandledIff`). Already
  the first request can end all (`RateLimitRuns.FirstGivesUp`).
- `handler/ratelimit/limiter.go:134-161` lets the last exhausted limit decide about mode and wait. In
  lists of any length and of any windows, a sliding limit of n requests keeps its bound if each limit
  that follows blocks, or allows n + 2 (as a fixed window n + 1) in no longer a period
  (`RateLimitRuns.SlidingBound`). For two sliding limits, n requests per p and then m per q
  nanoseconds, `RateLimitPairs.FirstHoldsIff` is exact: the first keeps its bound in all runs exactly
  if the second blocks, or m >= n + 2, or m <= n and (n / m) * q, plus one if m does not divide n, is
  at least p. With m == n + 1 it is broken only if more than p - q passes between the counts of one
  request in the two limits (`RateLimitPairs.PromptHolds`), which follow one another in the code
  (`handler/ratelimit/limiter.go:166-170`).
- `accesscontrol/jwt.go:473-485` looks up mapped values as they are written, but grants them trimmed.
  Mappings of untrimmed values are lost (`Permissions.UntrimmedValue`). For any claims and any map, the
  list holds exactly what is reached when each permission is looked up by the spelling with which it
  was found (`Permissions.GrantedBySpelling`), and `Permissions.ExactIff` says when that is what should
  be granted.
- `handler/transport/oauth2_req_auth.go:235-241` deletes the stored token when a backend rejects a
  request, also if the request was sent with an older one. `TokenProtocol.NewerTokenDeleted` is a run
  in which a valid token of another caller is lost.
- `server/writer/gzip.go:89-111` writes a short body again when closed twice
  (`GzipWriters.ClosingTwice`). The only caller, `handler/middleware/status.go:20-27`, closes once.
  `writeErr` is never set.
- `config/configload/helper.go:384-391` makes a new item for each reference to a backend that is not
  defined. All these items are alike, without dependencies, and share one item in the model.

## Model

| member | source | states |
|---|---|---|
| DataflowRaces.SameErrorIffClean | handler/endpoint.go:277-368 | For every valid endpoint whose roots do not hang, and every root: the error read for the root is the same in all runs exactly if the root is clean, that is, if no foreign error is shared along its chain of first failing dependencies |
| DataflowRaces.ProduceSameIff | handler/endpoint.go:350-360 | For every valid endpoint whose roots do not hang: produce returns the same error, or none, in all runs and for all iteration orders exactly if all failing roots are clean and have the same error |
| RaceExample.ResultsDiffer | handler/endpoint.go:277-368 | A valid endpoint without hanging roots has two runs that read all roots and return different errors: r waits for a and b, both wait for x, and x panics |
| RaceExample.ExampleValid | handler/endpoint.go:253-275 | This endpoint, with the channels that the function FillAll makes, is valid, and nothing in it hangs |
| DataflowRaces.TwoWays | handler/endpoint.go:277-341 | An item that is not clean has two runs: in one it crashes, in the other it sends on the foreign error |
| DataflowRaces.FirstToLook | handler/endpoint.go:277-290 | From a state in which a dependency sends its own foreign error, some run lets a given dependent look first and send it on |
| DataflowRaces.LastToLook | handler/endpoint.go:277-299 | Some run lets another dependent rewrite the error first, so that this one crashes |
| DataflowRaces.UnheldIsDone | handler/endpoint.go:277-306 | When only some held goroutines could still move, any goroutine whose first failing dependencies are not held has ended |
| DataflowRaces.LooksAt | handler/endpoint.go:277-290 | An error that a goroutine looks at was sent by its first failing dependency |
| DataflowResults.ResultsFixed | handler/endpoint.go:277-368 | In every run, exactly the roots are read, a root has an error exactly if it fails, a delivering root yields its own result, and a clean root always yields the same result and error |
| DataflowResults.ProduceFailsIff | handler/endpoint.go:350-360 | produce returns an error exactly if some root fails |
| DataflowResults.CleanSends | handler/endpoint.go:277-306 | In every reachable state a clean item sends the result that graph and producers determine |
| DataflowResults.OwnErrorsAreClean | handler/endpoint.go:277-299 | Without foreign errors every item is clean, and a blocked item yields the error of the first failing item below it: as it is if it has the kind of a sequence error, and otherwise as the cause of an error whose kinds are its kinds, then sequence and endpoint |
| DataflowResults.FailsAlone | handler/endpoint.go:327-346 | An item that fails by itself yields the error that its producer returned, or a foreign one after a panic |
| DataflowResults.BlockedByForeign | handler/endpoint.go:280-284 | A foreign error reaches its only dependent as a sequence error whose kinds cannot be read |
| DataflowResults.ProducesAfterDependencies | handler/endpoint.go:335-340 | A producer runs only when every item it depends on, directly or not, has run and delivered |
| DataflowEnds.EveryRunEnds | handler/endpoint.go:277-368 | The length of every run is bounded by the steps that goroutines and reader have at the start |
| DataflowEnds.AllReadIff | handler/endpoint.go:318-368 | Each run is the beginning of one in which all roots are read exactly if no root hangs, that is, if no root waits for an item without a producer |
| DataflowEnds.RunToTheEnd | handler/endpoint.go:318-368 | If no root hangs, every run is the beginning of one in which all roots are read |
| DataflowEnds.ProducersPreventHanging | handler/endpoint.go:323-341 | No item hangs if all items have producers |
| DataflowEnds.RunOn | handler/endpoint.go:318-368 | Every run is the beginning of one in which nothing but some held goroutines can move; these do not move in between, and any property that steps keep is kept |
| DataflowEnds.StepDrops | handler/endpoint.go:277-368 | Every step makes the remaining work smaller |
| DataflowRuns.DeadlockFree | handler/endpoint.go:277-368 | In every reachable state some actor can make a step, unless all goroutines that do not hang have ended and the reader has read all roots up to one that hangs |
| DataflowRuns.SendNeverWaits | handler/endpoint.go:301-306 | No send ever blocks on a one-slot channel |
| DataflowRuns.WaitsForUnfinished | handler/endpoint.go:277-279 | A goroutine that does not hang waits only for a dependency that has a producer, does not hang and has not ended |
| DataflowRuns.RunKeeps | handler/endpoint.go:318-368 | The invariant on goroutines, errors, channels and reader holds after every schedule |
| DataflowRuns.StepKeeps | handler/endpoint.go:277-368 | Every step of every actor keeps the invariant |
| DataflowInvariant.NodeStepKeeps | handler/endpoint.go:277-341 | A step of a goroutine keeps what is known about all goroutines and errors, and takes back nothing that was sent |
| DataflowInvariant.FailedCheckKeeps | handler/endpoint.go:280-287 | After looking at an error a goroutine crashes, sends on or rewrites as the first failing dependency demands |
| DataflowInvariant.RewriteKeeps | handler/endpoint.go:282-284 | Rewriting an error puts the final error in place, whoever does it |
| DataflowInvariant.BadInputIsCulprit | handler/endpoint.go:277-290 | The first input with an error comes from the first dependency that fails |
| Dataflow.FirstOffIs | handler/endpoint.go:277-290 | The first dependency that does not deliver is where all before it do |
| Dataflow.FailsIff | handler/endpoint.go:277-340 | An item fails exactly if its first dependency that does not deliver fails, or if all deliver and its own producer fails |
| CouperErrors.ReplacementIsFinal | handler/endpoint.go:280-299 | A rewritten error is never rewritten again: it is kept if it was Couper's own, and cannot be read if it was foreign |
| CouperErrors.ReplacementKeepsCause | handler/endpoint.go:280-284 | The replacement of an error of Couper's own type keeps that as its inner error, and has its kinds followed by sequence and endpoint |
| CouperErrors.OtherErrors | handler/endpoint.go:280-299 | A foreign error is replaced by one without a cause whose kinds cannot be read, looking at such an error panics, and a sequence error is kept |
| EndpointSetup.Prepare | config/runtime/endpoint.go:160-161 | For any references, producers and stack: a cycle is reported exactly if loading does not accept the references; setting up succeeds only without a cycle and with a producer for every item that refers to others, and then always if the stack allows more nested calls than there are items; the engine is then valid, and no root hangs if every referenced item has a producer |
| EndpointSetup.PrepareItems | config/runtime/endpoint.go:160-237 | For any references, producers and stack: loading, marking and adding independent producers end as above; if they end well, the items show the graph, the roots cover it, and each producer is told what it depends on |
| EndpointSetup.MarkRoots | config/runtime/endpoint.go:160-220 | Marking from the roots ends well only without a cycle and without a missing producer, and overflows only with a cycle or a stack no larger than the number of items |
| DependencyMarks.EndsIff | config/runtime/endpoint.go:206-220 | If no producer is missing, some stack is large enough for the walk from the roots exactly if there is no cycle |
| DependencyMarks.MarkedIff | config/runtime/endpoint.go:206-220 | Some stack lets the walk from the roots end well exactly if there is no cycle and no producer is missing |
| DependencyMarks.MarkedRoots | config/runtime/endpoint.go:206-220 | A walk that ends well has told exactly the producers of items with dependencies what these are |
| DependencyMarks.NamesCanBeRead | config/runtime/endpoint.go:214-217 | What a producer is told can be split at commas into the names of its dependencies, in order, if there is no comma in them |
| DependencyMarks.MarkedAll | config/runtime/endpoint.go:206-220 | The same below any items, from any marks |
| DependencyMarks.MarkedIsShort | config/runtime/endpoint.go:206-220 | A walk that ends well leaves no dependency path longer than the stack |
| DependencyMarks.AcyclicFits | config/runtime/endpoint.go:206-220 | Without a cycle, one more nested call than there are items is enough |
| DependencyMarks.PanicAt | config/runtime/endpoint.go:208-217 | A panic means that some item below has dependencies but no producer |
| DependencyMarks.MoreStack | config/runtime/endpoint.go:206-220 | A larger stack changes nothing about a walk that ends |
| DependencyMarks.Producers.MarkDependencies | config/runtime/endpoint.go:206-220 | The walk over the items ends as the function Mark says, on every graph |
| DependencyMarks.Producers.MarkItem | config/runtime/endpoint.go:207-219 | One item is marked, and then all that it depends on |
| EndpointSetup.SetUp | handler/endpoint.go:253-275 | Covered roots, their channels and producers for items make a valid endpoint; nothing hangs if all items have one |
| EndpointSetup.CabledFromChannels | handler/endpoint.go:253-275 | Every item has a result channel and one round of inputs from its dependencies in order |
| EndpointChannels.NewChannels | handler/endpoint.go:253-261 | The channels have one writer and one reader each, all items below the roots are finished, and inputs follow the dependencies |
| EndpointChannels.ChannelMaps.FillChannels | handler/endpoint.go:263-275 | The three maps become those of the function Fill |
| EndpointChannels.ChannelMaps.FillDependency | handler/endpoint.go:264-269 | A channel from the dependency to the item, and all channels below the dependency |
| EndpointChannels.ChannelMaps.AddLinkChannel | handler/endpoint.go:265-267 | One new channel in the inputs of one item and the outputs of the other |
| EndpointChannels.ChannelMaps.AddResultChannel | handler/endpoint.go:270-274 | One new result channel, only at the first visit |
| Wiring.FillAllSound | handler/endpoint.go:253-275 | Each channel is in exactly one output list, once, and in exactly one input list, once, or the result channel of its name; diamonds included |
| Wiring.FillAllSettled | handler/endpoint.go:263-275 | The inputs of each item come from its dependencies, the first round in order, and the round is complete once the item is finished |
| Wiring.FillOwnRound | handler/endpoint.go:263-269 | The inputs of an item itself follow its dependencies one by one, and the round is complete afterwards |
| Wiring.FillKeeps | handler/endpoint.go:263-275 | A property that each new channel keeps holds of all filled channels |
| Wiring.FillSameInputs | handler/endpoint.go:263-275 | Filling below an item leaves the inputs of all items that rank as high alone |
| Wiring.FinishedReaches | handler/endpoint.go:263-275 | Everything below an item with a result channel has one |
| Wiring.AddLinkWired | handler/endpoint.go:265-267 | A new link keeps the wiring |
| Wiring.AddResultWired | handler/endpoint.go:270-274 | A new result channel keeps the wiring |
| EndpointItems.BuildSequences | config/configload/endpoint_sequence.go:17-69 | Loading succeeds exactly if the calls for the sorted names never make the latest parents circular; a report means a real cycle, and with at most one referrer per item every cycle is reported; otherwise the items show the graph of the references, and the roots are distinct, on top, and cover all items |
| EndpointItems.LoadableCycle | config/configload/endpoint_sequence.go:30-58 | References with a cycle that loading accepts: a and b to d, and d to a |
| EndpointItems.AcceptedCycleIsEndless | config/runtime/endpoint.go:206-220 | If roots cover a graph with a cycle, some root has dependency paths of every length |
| EndpointItems.LinkAll | config/configload/endpoint_sequence.go:26-58 | All references are linked in the sorted order of the names, or a cycle is reported, exactly as the latest parents demand |
| EndpointItems.ReferencedOnceAcyclic | config/configload/endpoint_sequence.go:46-57 | Accepted references with at most one referrer per item have no cycle |
| EndpointItems.ParentlessRooted | config/configload/endpoint_sequence.go:60-66 | The items without parent are distinct, nothing depends on them, and they reach every item |
| EndpointItems.Climb | config/sequence/sequence.go:82-96 | Climbing parents ends at an item without parent, which reaches the start |
| EndpointItems.LinkItem | config/configload/endpoint_sequence.go:32-58 | One item is linked to all it refers to, or a cycle is reported |
| EndpointItems.LinkRefs | config/configload/endpoint_sequence.go:46-57 | Each reference is looked up or created and added, except the item itself |
| EndpointItems.EndpointEdge | config/configload/endpoint_sequence.go:46-57 | An edge of the graph is a reference to another item with a name |
| EndpointItems.AddIndependentProducers | config/runtime/endpoint.go:222-237 | The roots are extended by exactly the producers outside of all sequences, and stay distinct, on top and covering |
| EndpointItems.RootListsCover | config/runtime/endpoint.go:224-234 | A name is in one of the dependency lists exactly if it is an item |
| EndpointItems.IndependentRooted | config/runtime/endpoint.go:235 | Roots together with independent items cover the larger graph |
| Collections.SortDefault | config/runtime/server/default.go:6-28 | A permutation of the keys with the default item last |
| Collections.SortedKeys | config/configload/endpoint_sequence.go:26-30 | The sorted list of the keys, and the only one |
| Sorting.SortedIsUnique | config/configload/endpoint_sequence.go:26-30 | For any strict total order, the same strings have one sorted order only |
| ItemLinks.AcceptedIffParentsAcyclic | config/sequence/sequence.go:27-96 | Calls are accepted exactly if the latest parents never form a cycle on the way |
| ItemLinks.AddedOnceAcceptedIffAcyclic | config/sequence/sequence.go:27-63 | If every item is added at most once, the calls are accepted exactly if the dependencies have no cycle |
| ItemLinks.OneReferrerAcyclic | config/sequence/sequence.go:27-63 | If the parents have no cycle and no item is a dependency of two others, the dependencies have no cycle |
| ItemLinks.ReportedIsCycle | config/sequence/sequence.go:34-59 | A report means that the declared dependencies have a cycle |
| ItemLinks.MissedCycle | config/sequence/sequence.go:27-63 | Three calls with a cycle are accepted: a and b add d, and d adds a |
| ItemLinks.AcceptedKeeps | config/sequence/sequence.go:27-96 | After accepted calls the parents have no cycle, so looking for ancestors ends, and each parent link is a dependency |
| ItemLinks.AcceptedIsDeclared | config/sequence/sequence.go:61-62 | Accepted calls leave exactly the declared dependencies |
| ItemLinks.AddLinkKeeps | config/sequence/sequence.go:27-63 | One accepted call keeps the links sound |
| ItemLinks.AncestorIffParentCycle | config/sequence/sequence.go:32-34 | The ancestor check fires exactly if the new parent link closes a cycle of parents |
| Sequence.Item.Add | config/sequence/sequence.go:27-63 | Adds the link of the function AddLink, or reports a cycle and leaves the dependencies alone |
| Sequence.Item.SeesAncestor | config/sequence/sequence.go:32-34 | Finds an ancestor of that name exactly if there is one after the new parent link |
| Sequence.Item.HasAncestor | config/sequence/sequence.go:82-96 | Walks up the parents, ends, and finds exactly the ancestors |
| Sequence.Item.Deps | config/sequence/sequence.go:66-76 | The dependencies in reverse order |
| Sequence.ResolveSequence | config/sequence/sequence.go:98-111 | Appends to both lists as the depth-first function does, also on cyclic graphs |
| Sequence.ResolveDep | config/sequence/sequence.go:101-108 | Descends into a dependency exactly if it is in neither list |
| Sequence.ContainsString | config/sequence/sequence.go:124-131 | Membership |
| Sequence.Dependencies | config/sequence/sequence.go:114-122 | One depth-first list for each item |
| DepthFirst.DependencyListIsReachable | config/sequence/sequence.go:98-122 | Each list is duplicate-free and holds exactly the names that its root reaches, on every graph |
| DepthFirst.DependencyListDepsFirst | config/sequence/sequence.go:98-122 | Names come after all they depend on exactly if there is no cycle below the root |
| DepthFirst.ResolveSound | config/sequence/sequence.go:98-111 | A visit keeps both lists sound and adds only reachable names |
| DepthFirst.ResolveDepsFirst | config/sequence/sequence.go:98-111 | A visit keeps dependencies first while no open name can be reached again |
| BackendOrder.ResolveBackendDeps | config/configload/helper.go:365-418 | For the order in which the map is read: a cycle is reported exactly if the calls in that order make the latest parents circular; a report means a real cycle, and if no backend has two referrers every cycle is reported; otherwise every defined or referenced backend is listed exactly once, referenced ones first exactly if there is no cycle |
| BackendOrder.OrderDecides | config/configload/helper.go:383-393 | References with a cycle that is accepted in one order and reported in another |
| BackendOrder.BackendNamesComplete | config/configload/helper.go:395-415 | The de-duplicated lists hold exactly the items and the standalone names, once each |
| BackendOrder.BackendNamesDepsFirst | config/configload/helper.go:395-415 | First occurrences over all lists keep dependencies first exactly if there is no cycle |
| BackendOrder.AddAllNewDepsFirst | config/configload/helper.go:405-415 | Keeping first occurrences of lists with dependencies first keeps dependencies first |
| BackendOrder.Unique | config/configload/helper.go:404-415 | The names of all lists, each at its first occurrence |
| BackendOrder.LinkParents | config/configload/helper.go:383-393 | A circle is reported exactly if the calls for the parents in this order are not accepted, and only if the references have a cycle; otherwise exactly these calls were made, and the items of all parents are linked and listed |
| BackendOrder.AddReferences | config/configload/helper.go:384-392 | All references of one backend are added, or a circle is reported |
| BackendOrder.CreateItems | config/configload/helper.go:370-374 | One item for each defined backend |
| BackendOrder.OrderForReferences | config/configload/helper.go:365-418 | The order of the linked items is right for the references as given |
| Permissions.AllGrantedIs | accesscontrol/jwt.go:357-500 | The list begins with what the claims grant and has no duplicates; for a regular map it holds exactly the granted permissions, also with cycles |
| Permissions.GrantedBySpelling | accesscontrol/jwt.go:357-500 | For any claims and any map: the list begins with what the claims grant, has no duplicates, and holds exactly what is reached from there when each permission is looked up by the spelling with which it was found in the map |
| Permissions.ExactIff | accesscontrol/jwt.go:461-488 | For any map, the list holds exactly what should be granted if and only if every permission in it has its own mappings there and those that should be granted lead only to such by their spellings |
| Permissions.GrantedAsSpelled | accesscontrol/jwt.go:357-500 | For any claims and any graph that leads on as the spellings in the map do, the list holds exactly what the graph reaches from the permissions of the claims |
| Permissions.OneSpellingResult | accesscontrol/jwt.go:461-488 | For any claims and any map with one spelling for each permission, trimmed or not, the list holds exactly what is reached when each mapped permission is looked up as it is spelled |
| Permissions.GrantedIsLeast | accesscontrol/jwt.go:461-488 | The granted permissions are the least set that holds what the claims grant and is closed under the map |
| Permissions.TrimmedIsRegular | accesscontrol/jwt.go:475-482 | A map whose values are trimmed is regular |
| Permissions.UntrimmedValue | accesscontrol/jwt.go:475-485 | A single untrimmed value that is no key is granted trimmed without its own mappings; the result is closed exactly if there are none to find |
| Permissions.MappedGrows | accesscontrol/jwt.go:461-488 | For any map, every new permission has a spelling that the map has for the source or for the spelling of another new permission; what that is mapped to is in the list, as is what the source is mapped to; and it is reached from the source by such spellings |
| Permissions.FromClaimsIs | accesscontrol/jwt.go:357-459 | The list before mapping is duplicate-free and holds exactly what values and roles of the claims grant |
| Permissions.WordsGrant | accesscontrol/jwt.go:396-404 | A text in the permissions claim grants what the parts before and after any space in it grant |
| Permissions.WordGrants | accesscontrol/jwt.go:396-404 | A text without a space grants exactly its trimmed form, if that is not empty |
| Permissions.ListGrants | accesscontrol/jwt.go:381-395 | A list grants exactly the trimmed forms of its members, or nothing if one of them is not a string |
| Permissions.RoleWordsGrant | accesscontrol/jwt.go:425-431 | The same for a text in the roles claim |
| Permissions.RoleWordGrants | accesscontrol/jwt.go:444-458 | A role without a space grants exactly what it and the wildcard role are mapped to |
| Permissions.RoleListGrants | accesscontrol/jwt.go:409-458 | A list of roles grants what its members and the wildcard role are mapped to, or the latter only if one of them is not a string |
| Text.SplitJoin | accesscontrol/jwt.go:402-402 | Splitting what was joined gives the parts, if none of them has the separator in it |
| Text.JoinSplit | server/mux.go:40-41 | Joining what was split gives the text, and there is one part more than there are separators |
| Text.TrimSpaceIs | accesscontrol/jwt.go:491-491 | Trimming gives the one trimmed text that stands between surrounding space, for every text |
| Text.LexLessIff | server/mux.go:65-65 | A text comes before another exactly if it is the beginning of it or has the smaller character where they first differ |
| Permissions.AddedRolesIs | accesscontrol/jwt.go:444-458 | Roles add exactly their permissions, once, after those already there |
| Permissions.NewValuesAre | accesscontrol/jwt.go:473-482 | The values kept for the recursion spell exactly the new permissions |
| Permissions.AddMappedPermissions | accesscontrol/jwt.go:461-488 | Ends on every map and returns the depth-first extension |
| Permissions.AddMappedBelow | accesscontrol/jwt.go:467-485 | The values for one permission and what they are mapped to |
| Permissions.AddValues | accesscontrol/jwt.go:473-482 | The list after adding the values, and the spellings that were new |
| Permissions.AddPermission | accesscontrol/jwt.go:490-500 | Appends the trimmed permission exactly if it is neither blank nor there |
| Permissions.AddPermissionsFromPermissionsClaim | accesscontrol/jwt.go:371-403 | Adds the values of the claim in order, which WordsGrant, WordGrants and ListGrants are about, or nothing if one of them is not a string |
| Permissions.AddPermissionsFromRoles | accesscontrol/jwt.go:434-459 | Adds the permissions of each role and of the wildcard role, if the claim is there |
| Permissions.GetRoleValues | accesscontrol/jwt.go:405-432 | The string values of the claim |
| Permissions.GetGrantedPermissions | accesscontrol/jwt.go:357-367 | Returns the list that AllGrantedIs is about |
| RateLimitRuns.SlidingBound | handler/ratelimit/limiter.go:68-170 | Sliding window, in a list of any length: over every run, admissions perPeriod places apart are at least a period apart, and every half-open interval of one period holds at most perPeriod, if each limit that follows blocks, or allows two more (as a fixed window one more) in no longer a period |
| RateLimitRuns.GuardedDecides | handler/ratelimit/limiter.go:134-161 | In every reachable state such generous limits have capacity whenever a request is checked |
| RateLimitRuns.FixedBound | handler/ratelimit/limiter.go:68-170 | Fixed window: over every run, a grid period counts at most perPeriod requests checked in it and one carried over; a blocking limit admits at most perPeriod of those checked in it |
| RateLimitRuns.AllBlockAdmitsIff | handler/ratelimit/limiter.go:93-164 | With blocking limits only, a request is admitted at once exactly if every limit has capacity, and rejected exactly otherwise |
| RateLimitPairs.FirstHoldsIff | handler/ratelimit/limiter.go:134-161 | Two sliding limits, n per p and then m per q, p > q, in any modes: the first keeps its bound in all runs exactly if the second blocks, or m >= n + 2, or m <= n and (n / m) * q, plus one if m does not divide n, is at least p |
| RateLimitPairs.SafeHolds | handler/ratelimit/limiter.go:134-161 | Under these conditions the first limit keeps its bound in every run |
| RateLimitPairs.FastBreaks | handler/ratelimit/limiter.go:134-161 | If the second limit allows at most n and is too fast, n requests in time and one that waits for the second limit only break the first |
| RateLimitPairs.LateBreaks | handler/ratelimit/limiter.go:134-170 | If the second limit allows n + 1, a first request that it counts late makes it exhausted at the end, which breaks the first |
| RateLimitPairs.PromptHolds | handler/ratelimit/limiter.go:134-170 | If the second limit allows n + 1, the first keeps its bound in every run in which no request is counted by the second more than p - q after the first |
| RateLimitPairs.LaterWaitWins | handler/ratelimit/limiter.go:134-161 | Two limits of one request per period: a request at once and one that waits for the second limit break the first |
| RateLimitRuns.CapacityLaterIff | handler/ratelimit/limiter.go:134-161 | After some time a limit has capacity exactly if it did not demand a longer wait |
| RateLimitRuns.HandledIff | handler/ratelimit/limiter.go:74-126 | After any run of any limiter, a request can be admitted exactly if no request of the run was cancelled while it was waiting; otherwise no request is handled in any way |
| RateLimitRuns.AdmittedAfterPause | handler/ratelimit/limiter.go:74-126 | If no request was cancelled while it was waiting, any request that comes at least the longest period after the last one is admitted at once, whatever happened before |
| RateLimitRuns.LockedIff | handler/ratelimit/limiter.go:74-126 | The mutex stays locked exactly if a request of the run was cancelled while it was waiting |
| RateLimitRuns.FirstGivesUp | handler/ratelimit/limiter.go:91-109 | In every new limiter the first request can be cancelled after its capacity check, and then no request is handled |
| RateLimitRuns.LockedForever | handler/ratelimit/limiter.go:91-109 | Once the mutex stays locked, no run changes anything |
| RateLimitRuns.UncountedUseNothing | handler/ratelimit/limiter.go:79-109 | After a request that was blocked or cancelled, every limit demands at all later times the same wait as without that request |
| RateLimitRuns.AdmittedInTime | handler/ratelimit/limiter.go:93-114 | A request is counted by a limit only when that has capacity, if the limits that follow block or have capacity |
| RateLimitRuns.RunKept | handler/ratelimit/limiter.go:68-170 | Windows, counts and grid starts agree with the log of admissions in every reachable state |
| RateLimitRuns.RolledOnGrid | handler/ratelimit/limiter.go:137-142 | Rolling keeps the start of a fixed window on the grid, and brackets the time of the check |
| RateLimitRuns.RolledCount | handler/ratelimit/limiter.go:137-142 | After rolling, the count is the number of admissions checked in the current period |
| RateLimitRuns.CapacityIsNoWait | handler/ratelimit/limiter.go:131-164 | The wait is zero exactly if every limit has capacity, for any modes and windows |
| RateLimitRuns.SlidingExhaustedIff | handler/ratelimit/limiter.go:150-159 | After any run, a sliding limit is exhausted exactly if it has counted at least perPeriod requests in the period that ends now |
| RateLimitRuns.FixedExhaustedIff | handler/ratelimit/limiter.go:135-149 | After any run, a fixed limit is exhausted exactly if at least perPeriod requests that were admitted had been checked in the current grid period |
| RateLimitRuns.LastExhaustedDecides | handler/ratelimit/limiter.go:93-161 | For any limits: a request is rejected exactly if the last exhausted limit blocks; otherwise it may give up, or is admitted after the wait that this limit demands |
| RateLimits.ExhaustedDecides | handler/ratelimit/limiter.go:134-161 | An exhausted limit blocks the request or sets its own wait, if the limits that follow block or have capacity |
| RateLimits.LastExhausted | handler/ratelimit/limiter.go:134-161 | Mode and wait are those of the last exhausted limit |
| RateLimits.NoWaitIff | handler/ratelimit/limiter.go:134-161 | No exhausted limit, no wait, and the other way round |
| RateLimits.SpacedAtMost | handler/ratelimit/limiter.go:150-159 | Spaced times put at most n into any half-open interval |
| Periods.SlotOnGrid | handler/ratelimit/limiter.go:137-142 | The times with the number of a grid period are those from its start to its end |
| RingBuffers.RingBuffer.Put | handler/ratelimit/ring_buffer.go:29-45 | The slots hold the latest times, oldest first |
| RingBuffers.RingBuffer.Get | handler/ratelimit/ring_buffer.go:49-58 | The time that is as many puts back as the buffer is long, or the zero time |
| RingBuffers.RingBuffer.constructor | handler/ratelimit/ring_buffer.go:18-25 | A buffer without puts |
| Limiters.RateLimit.CheckCapacity | handler/ratelimit/limiter.go:134-161 | Rolls the window and returns the wait of this limit |
| Limiters.RateLimit.CountRequest | handler/ratelimit/config.go:111-118 | Counts the request in the window |
| Limiters.Limiter.CheckCapacity | handler/ratelimit/limiter.go:131-164 | All windows are rolled, and mode and wait are those of the last exhausted limit |
| Limiters.Limiter.CountRequest | handler/ratelimit/limiter.go:166-170 | Each limit counts the request at its own time |
| Limiters.Limiter.Turn | handler/ratelimit/limiter.go:74-126 | One turn of the loop is one event of the run, with limits and mutex as that event leaves them |
| Limiters.NewLimiter | handler/ratelimit/limiter.go:27-46 | No limiter without limits; otherwise an initial state |
| Limiters.ConfigureRateLimits | handler/ratelimit/config.go:35-108 | Succeeds exactly for valid settings with different periods, and gives one limit each, longest period first |
| Limiters.Configure | handler/ratelimit/config.go:65-95 | Window and mode as set, with their defaults, or an error |
| Limiters.DefaultsAre | handler/ratelimit/config.go:65-95 | Without a window, it is sliding; without a mode, requests wait; all else is as set |
| Limiters.TwoSettings | handler/ratelimit/config.go:35-108 | Two settings for sliding windows give the pair of limits that RateLimitPairs is about, longer period first |
| Limiters.SortByPeriod | handler/ratelimit/config.go:102-105 | The same limits in descending order |
| MemoryStores.MemoryStore.Set | cache/memory.go:82-95 | The history gets a Put; the entry lives for the clamped time |
| MemoryStores.MemoryStore.Get | cache/memory.go:50-62 | The value that the history without any collection gives |
| MemoryStores.LiveIff | cache/memory.go:50-62 | A key has a value exactly while the latest event that concerns it set that value and its clamped lifetime has not passed |
| MemoryStores.ClampedIs | cache/memory.go:82-90 | Negative lifetimes count as none, those of more than a day as a day, others as they are |
| MemoryStores.MemoryStore.GetAllWithPrefix | cache/memory.go:64-79 | Lists each key once, every key that lives throughout, and only keys that lived at the beginning |
| MemoryStores.MemoryStore.Del | cache/memory.go:41-47 | The history gets a Delete |
| MemoryStores.MemoryStore.Gc | cache/memory.go:97-123 | Removes exactly what had expired at the tick, without a trace in the history, also when the tick is handled late |
| MemoryStores.CollectAgrees | cache/memory.go:113-117 | Removing an entry that had expired by an earlier tick goes unnoticed |
| MemoryStores.PutAgrees | cache/memory.go:82-95 | A Put keeps database and history in agreement |
| MemoryStores.DeleteAgrees | cache/memory.go:41-47 | A Delete keeps database and history in agreement |
| TokenProtocol.RequestsAreNeeded | handler/transport/oauth2_req_auth.go:188-269 | A token request goes out only when nothing live is in the store; between any two, one failed, stored nothing live, or its token expired or was deleted |
| TokenProtocol.OneRequestInFlight | handler/transport/oauth2_req_auth.go:195-230 | At most one token request is in flight |
| TokenProtocol.SomeCallerMoves | handler/transport/oauth2_req_auth.go:188-269 | In every reachable state in which a caller is on its way, some such caller can make a move |
| TokenProtocol.ComesToRest | handler/transport/oauth2_req_auth.go:188-269 | Every run is the beginning of one after which no caller is on its way and the mutex is free, even if no more requests succeed |
| TokenProtocol.NewerTokenDeleted | handler/transport/oauth2_req_auth.go:235-241 | A run in which the rejection of an older token deletes the live token of another caller |
| TokenProtocol.TokensAreGenuine | handler/transport/oauth2_req_auth.go:188-269 | A token that a caller gets comes from a response, and retries stay within their bound |
| TokenProtocol.ResultIsExplained | handler/transport/oauth2_req_auth.go:188-230 | In every run: a caller with a token has read it from the store while it lived, or stored it as its own response, at its last move before it was done; a caller without one has seen its request fail, or could not build its assertion |
| TokenProtocol.FailedHasReason | handler/transport/oauth2_req_auth.go:188-230 | GetToken fails only if the request of this caller failed or its assertion could not be built |
| TokenProtocol.LiveTokenAtOnce | handler/transport/oauth2_req_auth.go:188-193 | In every reachable state, a caller that reads a live token returns it at once, without the mutex and without a request |
| TokenProtocol.RetriesWhileLeft | handler/transport/oauth2_req_auth.go:235-250 | In every run, a caller whose token is rejected tries again exactly if fewer rejections than the maximum came before since its call |
| TokenProtocol.EnvironmentDecides | handler/transport/oauth2_req_auth.go:188-250 | Failing assertions and requests, any response, rejections and collection of expired tokens are always possible |
| TokenProtocol.RunInv | handler/transport/oauth2_req_auth.go:188-269 | Mutual exclusion, empty store while requesting, and a reason for each request, in every reachable state |
| TokenProtocol.NextInv | handler/transport/oauth2_req_auth.go:188-269 | Every move of every caller and of the collector keeps the invariant |
| TokenProtocol.IssueIsJustified | handler/transport/oauth2_req_auth.go:195-227 | When a request goes out, every earlier one has a reason after it |
| TokenProtocol.UselessResponse | handler/transport/oauth2_req_auth.go:260-269 | A stored token is of no use to anyone exactly if it is empty or its time rounds to nothing |
| TokenProtocol.TokenOutlivedByPermit | handler/transport/oauth2_req_auth.go:260-269 | A token lives nine tenths of its permitted time, in whole seconds rounded down, but at most a day, and never negatively |
| GzipWriters.BodyIsDelivered | server/writer/gzip.go:50-164 | For any chunks and flushes the whole body is delivered in order, on one path, compressed exactly if accepted, long enough and not already compressed, with one trailer at the end |
| GzipWriters.HeaderIsRight | server/writer/gzip.go:121-146 | The status goes out at most once and first; the length goes out exactly if it was set and the body is not compressed here; the encoding is gzip if it is, and otherwise as it was set; Vary is added once exactly if the body has 60 bytes |
| GzipWriters.LateSettings | server/writer/gzip.go:121-146 | Status and encoding that are set after the first 60 bytes change nothing that goes out |
| GzipWriters.EarlySettings | server/writer/gzip.go:113-146 | Of those set before, the latest counts |
| GzipWriters.FlushReaches | server/writer/gzip.go:148-164 | After the first 60 bytes a flush is passed on, after everything written so far and, if there is one, after the flush of the compressor; before, nothing goes out |
| GzipWriters.ChunkingIsInvisible | server/writer/gzip.go:50-111 | Different chunks of the same body give the same text on the same path |
| GzipWriters.ClosingTwice | server/writer/gzip.go:89-111 | A second Close leaves the text right exactly if the body is empty or long enough |
| GzipWriters.RunKeeps | server/writer/gzip.go:50-164 | Before 60 bytes everything is collected; afterwards everything has gone one way |
| GzipWriters.ChunkCollects | server/writer/gzip.go:50-80 | A chunk is collected, or completes the first 60 bytes and sends all of them |
| GzipResponses.Gzip.Write | server/writer/gzip.go:50-80 | The writer becomes that of the function Write, and the caller is told that all bytes were taken |
| GzipResponses.Gzip.Close | server/writer/gzip.go:89-111 | The writer becomes that of the function Close |
| GzipResponses.Gzip.Flush | server/writer/gzip.go:148-164 | The writer becomes that of the function Flush |
| GzipResponses.Gzip.SendHeader | server/writer/gzip.go:121-146 | The header goes out once, as the function WithHeader says |
| PathOrder.OrderIsUnique | server/mux.go:38-65 | The same patterns have only one sorted order |
| PathOrder.LessTransitive | server/mux.go:39-64 | The comparison is transitive |
| PathOrder.LessTotal | server/mux.go:39-64 | The comparison decides between any two different patterns |
| PathOrder.LessIrreflexive | server/mux.go:39-64 | No pattern comes before itself |
| PathOrder.LessMeans | server/mux.go:39-62 | Wildcards come last, then longer patterns first, then static segments before parameters at the first difference in kind |
| PathOrder.WildcardsComeLast | server/mux.go:44-49 | A pattern that ends in /** comes after every pattern that does not, except ** itself |
| PathOrder.WildcardIff | server/mux.go:42-49 | Exactly ** and the patterns that end in /** are wildcards |
| PathOrder.LongerComesFirst | server/mux.go:50-55 | Of two patterns that both end in /** or both do not, that with more slashes comes first |
| PathOrder.StaticComesFirst | server/mux.go:56-64 | Of two patterns as long, given by the texts between their slashes, that without braces where they first differ in having them comes first |
| PathOrder.AlikeByText | server/mux.go:65-65 | Patterns with braces at the same places are compared as texts |
| PathOrder.ParamIff | server/mux.go:34-36 | Exactly a text in braces is a parameter |
| PathOrder.SortPathPatterns | server/mux.go:38-65 | Sorted, a permutation, and the only such list |
| PathOrder.SortedPathPatterns | server/mux.go:67-78 | The one sorted list of the patterns, whatever the iteration order of the map |

## Left out

- Permissions.OneSpellingResult: asks for one spelling of each permission, as otherwise the graph depends on the claims; `GrantedBySpelling` covers all maps.
- Permissions.UntrimmedValue: one permission with one value, as an example; `GrantedBySpelling` and `ExactIff` cover all maps.
- RateLimitRuns.SlidingBound: says nothing about a limit that a less generous waiting limit follows; `RateLimitPairs.FirstHoldsIff` is exact for two sliding limits, and pairs with a fixed window and longer lists have no exact condition here.
- RateLimitRuns.FixedBound: says nothing about a limit that a waiting limit follows.
- GzipResponses.Gzip.Write: the sink takes all bytes; the errors of a sink that fails are left out.
- GzipResponses.Gzip.Close: likewise.
- GzipResponses.Gzip.SendHeader: the connection is not hijacked.
- MemoryStores.MemoryStore.GetAllWithPrefix: what dies while the list is built may be listed or not, as the clock is read once per entry.
- Real HTTP round trips, spans, logging and timings: a producer is an arbitrary outcome.
- Decoding of configuration: reference lists and settings are given (`responseReferences`, `collectBackendDeps`, `collectFromBlocks`).
- The text of error messages.
- Widths of machine integers: counts, times in nanoseconds and indices are unbounded.
- Rounding of floating point numbers: the lifetime of a token is computed over the reals.
- The data race on the shared error field: an error is read and written in one step.
- Fairness of the admission loop and of lock queues; the transport behind the limiter.
- Signature checks of tokens, and building of assertions beyond success or failure.
- Hijacked connections, sinks that fail, and the compression format itself.
- Strings as bytes: they are sequences of code points, whose order is that of their UTF-8 encodings.
