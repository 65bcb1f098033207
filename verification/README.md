# A verified model of dig's container

[dig](https://github.com/uber-go/dig) is a dependency-injection container for Go. Constructors and decorators are
registered in a tree of scopes; `Invoke` then builds what a function asks for, calling constructors and decorators on
the way and keeping what they return. This project models four parts of it and proves what they promise, over every
input, every run and every reachable state.

- **Cycle detection** (`CycleDetector.dfy`): the depth-first search with its marks in arrays.
- **Registration** (`Registry.dfy`, `Registration*.dfy`, `Runs.dfy`, `Coverage.dfy`, `Tables.dfy`): scopes, provider and
  decorator tables, the dependency graph of every scope with its order indices, snapshots and rollback, the check for
  cycles and the flag that remembers it. `Declarations.dfy` says what of a declaration the tables hold afterwards.
- **Resolution** (`Values.dfy`, `ResultTree.dfy`, `Extraction.dfy`, `Resolver.dfy`, `Evaluator.dfy`, `Refinement.dfy`,
  `Sessions.dfy`, `Commits.dfy`, `Ledger.dfy`, `Independence.dfy`, `Decoration.dfy`, `Shuffle.dfy`, `Container.dfy`): `Build`
  and `Call`, which recurse into each other through caches, optional parameters, value groups and the states of decorators;
  the result trees; and a plain evaluator that says what each request means. `Returned.dfy`, `Arguments.dfy`, `Absence.dfy`
  and `SoftGroups.dfy` say what resolver and evaluator have in common without their functions: by the returned values, by
  the parameters, by the registrations and by the constructors called so far.
- **The two together** (`Invocation.dfy`, `Guarantees.dfy`, `Requests.dfy`, `Machine.dfy`, `Later.dfy`): Invoke on a
  container as registration has left it, and registrations and Invokes in any order.
- **The DOT graph** (`DotGraph.dfy`): recording failures and pruning what did not fail.

`Limits.dfy`, `Deferral.dfy` and `Stale.dfy` hold runs at whose end a promise fails. The condition under which it holds is
exact for groups without a name (`NamelessGroupsAreTheLimit`) and for a Provide that fails (`ProvideIsAllOrNothing`). It is
a sufficient one for `ConstructorRunsTwice` (`ConstructorsCommitOnce`), `LateProvideIsTooLate` (`EveryInvokeAgrees`),
`ExportHidesCycle` and `DeferredCheckMissesCycle` (`AcyclicScopeCovers`), and `RejectionLeavesDanglingEdge`
(`EveryRunIsSound`). `Stacked.dfy` holds a run with decorators in two scopes that meets every hypothesis of the theorems on
decoration. `Scenario.dfy` proves what such runs lead to, step by step.

## How it is built

Code that changes state is modelled twice. The classes `ScopeTables` (the tables of all scopes), `Container` (their
stores), `StagingWriter`, `ConnectionVisitor` and `DotGraph.Graph` have the fields that the program updates and methods
with its loops; each method is proved to do what a function of values says (`Provide`, `NewScope`, `Decorate`, the members
of `Env`, `Prune`). The properties are proved about these functions. Scopes, constructors, decorators and group parameters
are named by their positions in the tables.

- `Inv` is the invariant of registration: order indices are exact, every visible provider has its place in the graph,
  listed constructors belong to the scope that lists them, a flagged scope has no cycle.
- `Env` is a container with fixed registrations, seen from some of its scopes. `Closed` says that constructors can be
  ranked so that the rank falls from caller to callee; it is what makes `Build` end, and `Coverage.dfy` proves it from the
  check for cycles. Decorators are not ranked for this: the number of decorators that were not started falls instead.
- `Meaning` gives every constructor and decorator its outcome, as a function of the outcomes of what it depends on. It
  exists and is unique where decorators can be ranked too (`Layered`). `Exact` says that the stores hold what the
  constructors and decorators called so far mean, and nothing else.
- Where constructors and decorators can be ranked together (`Ranked`), each constructor commits at most once, whatever is
  registered between the Invokes (`Commits.dfy`). Without any condition the stores are the replay of what was committed
  (`Ledger.dfy`).
- `Checked` is what an Invoke needs in order to end: if the check for cycles passes, all that it can reach can be ranked.
  It holds in every scope of a container without deferral and export, and in every scope that sees no exported constructor
  and no group parameter older than itself.
- No proof rests on induction that the verifier tries of its own accord: lemmas to which it would apply induction say
  `{:induction false}` and call themselves where they need to.
- The user's functions are arbitrary functions from arguments to returned values; they do not re-enter the container.
  The order of a value group is undefined, so its consumer is handed a multiset.

## Model

| member | source | states |
|---|---|---|
| `CycleDetector.IsAcyclic` | internal/graph/graph.go:41-57 | Answers true exactly when the graph has no cycle, and exactly when its nodes can be ranked so that every edge goes down; otherwise it returns a real simple cycle. |
| `CycleDetector.Explore` | internal/graph/graph.go:67-98 | Although the visited marks persist over all roots, an empty answer means that the node and all it reaches are finished without a cycle, and leaves the stack as it was; any other answer is a simple cycle. |
| `CycleDetector.CloseCycle` | internal/graph/graph.go:81-94 | The path cut back to where it closes is a closed walk along edges whose nodes but the last are distinct. |
| `CycleDetector.FinishOrderRanks` | internal/graph/graph.go:67-98 | The order in which nodes are finished ranks them: it falls along every edge. |
| `CycleDetector.Reset` | internal/graph/graph.go:114-118 | Clears all stack marks. |
| `ResultTree.NewResultList` | result.go:214-241 | Refuses exactly the lists with a result that is refused; otherwise sends each returned value to the result it was declared as and errors to none. |
| `ResultTree.PositionsMatch` | result.go:214-241 | The index of a returned value is that of its own result, or -1 exactly for errors. |
| `ResultTree.PositionsIncrease` | result.go:214-241 | No two returned values are sent to the same result. |
| `ResultTree.PositionsCover` | result.go:214-241 | Every result is sent a value, and every index is in range. |
| `ResultTree.ConnectionVisitor.VisitKeys` | provide.go:614-670 | Keys are collected and a conflict is found exactly as for the sequence of all keys met so far. |
| `ResultTree.ConnectionVisitor.Walk` | result.go:166-192 | The walk gives the outcome of all the entries of the tree, although a conflict stops it. |
| `ResultTree.FindAndValidateResults` | provide.go:551-569 | Succeeds exactly if no single key is provided already or met before in the same results, and then returns the set of all keys. |
| `ResultTree.FindResultKeys` | decorate.go:296-325 | The breadth-first search finds the key of every leaf as often as it occurs, and fails exactly on a decorated group that is not a slice. |
| `ResultTree.SearchFindsLeaves` | decorate.go:296-325 | The same for the search as a function: its keys are, as a multiset, those of the leaves of the trees. |
| `Extraction.StagingWriter.SetValue` | constructor.go:228-230 | The staged values with this key set. |
| `Extraction.StagingWriter.SubmitGroupedValue` | constructor.go:236-239 | The staged group with this value at its end. |
| `Extraction.StagingWriter.Extract` | result.go:327-337 | Stages exactly the writes of the result tree, in order. |
| `Extraction.StagingWriter.SubmitFlattened` | result.go:518-535 | A flattened group receives each item of the slice, in order. |
| `Extraction.StagingWriter.ExtractList` | result.go:247-260 | Stages the writes of all returned values up to the first error, which it returns. |
| `Extraction.RegisteredKeysAreWritten` | result.go:247-260 | If a constructor returns no error, the single keys staged are exactly the single keys that the visitor registered and exactly those that the returned values are declared for, each with the value returned where it was declared; only registered groups receive values. |
| `Extraction.DeclaredLeavesAreWritten` | result.go:327-331 | If a decorator returns no error, it writes exactly the leaves it declares: single values under their own key and groups as whole slices. |
| `Returned.ExtractionFails` | result.go:247-260 | Extraction fails with an error if and only if this is the first value among those declared as errors that is not nil; for constructors and for decorators. |
| `Returned.RunCtorFails` | constructor.go:197-210 | A constructor fails with `u` if and only if `u` is the first error that it returns, and then leaves the stores as they were; otherwise it is called and committed. |
| `Returned.RunDecoratorFails` | decorate.go:156-162 | So does a decorator, which is left on the stack if it fails and is called otherwise. |
| `Returned.FailedDecoratorIsOnStack` | decorate.go:106-162 | Whatever makes a call of a decorator fail, a missing dependency, an argument or its own error, it is on the stack afterwards, and called if the call succeeds. |
| `Returned.GroupsReceiveWhatIsReturned` | result.go:518-535 | A constructor that returns no error contributes to each group, as a multiset, each grouped value once for its own type and once for each type it is provided as, and each item of a flattened slice; and nothing else. |
| `Returned.MeaningIsReturned` | constructor.go:148-210 | A constructor means success if and only if no required type is missing, its arguments can be built and it returns no error; it then means what it returned. |
| `Returned.GroupIsGiven` | param.go:634-652 | A group that is not decorated, and none of whose visible providers fails, is the multiset of all that these return for it. |
| `Returned.DecoratorWritesWhatIsReturned` | result.go:385-389 | A decorator that returns no error leaves in its scope, for each single value and each group that it declares, the value returned there, and leaves all other decorated values as they were. |
| `Arguments.ArgumentsInOrder` | param.go:147-157 | There is one argument for each parameter, in order, if and only if all can be built. |
| `Arguments.ObjectHoldsFields` | param.go:397-420 | A parameter object has the value of each field at the place of this field, and nothing else, if and only if all can be built. |
| `SoftGroups.SoftGroupsAreBuiltLast` | param.go:397-412 | Fields that are not soft groups are built first and soft groups last, both in the order of declaration. |
| `SoftGroups.SoftGroupCallsNobody` | param.go:634-652 | In every state of the stores, a soft group that is not decorated is what the stores up to the root hold of it, and to build it changes nothing. |
| `SoftGroups.SoftGroupHoldsCalled` | param.go:634-652 | Where the stores are exact these are the contributions of the visible providers that have been called, each once, and of no other constructor. |
| `Absence.MissingListIs` | invoke.go:176-212 | The missing types are the required ones, at any depth, that no scope up to the root provides and that have no decorated value in the scope itself. |
| `Absence.ClosestProvides` | param.go:264-278 | The providers of a single value are those of the closest scope that has any. |
| `Absence.CtorLacksIff` | param.go:293-303 | The error of a failed constructor is one that an optional parameter tolerates if and only if the registrations trace it to something missing: a required type without provider, here or any number of parameters, group members and decorators below, always at the first that fails; or an error of the user's that says so. |
| `Absence.OptionalToleratesAbsence` | param.go:287-303 | If the first of its providers that fails does so for want of something, an optional parameter is zero and a required one fails; if it fails for another reason, both fail with the same error. |
| `Absence.UnprovidedIsLacked` | constructor.go:153-158 | A constructor with a required type that nobody up to the root provides fails for want of it. |
| `Absence.WantIsPassedOn` | param.go:293-303 | A constructor passes on the want of a provider of its first parameter that cannot be built, if this is a required one. |
| `Absence.UserErrorIsPassedOn` | param.go:299-303 | A user's error in which nothing is missing makes required and optional parameters fail, with the constructor as the culprit. |
| `Absence.DecoratorFailureIsPassedOn` | param.go:233-242 | The failure of the closest decorator makes a parameter fail, optional or not, whatever its reason. |
| `Absence.GroupFailsWith` | param.go:579-620 | A group fails with the outermost of its decorators that fails, or else, if it is not decorated, with the first of its visible providers that fails. |
| `Registry.BuildOrderKeeps` | param.go:397-412 | Moving soft groups to the end loses, repeats and invents no field. |
| `RegistrationInvariant.EdgesInRange` | graph.go:64-78 | While the tables fit together, every edge of every scope's graph, from constructors and from group parameters, leads to a node of this graph. |
| `RegistrationInvariant.VisibleProviderPlaced` | scope.go:264-271 | Every provider that a scope can see stands in the scope's graph at the index that its order says. |
| `Declarations.NewParamsAreMade` | param.go:116-138 | Parameters are made if and only if none is refused at any depth; then there is one for each that is declared, in order, with the same key, optional and soft flags, element and slice types, and fields. |
| `Declarations.ProvideFailsFor` | provide.go:440-519 | Why Provide fails, in this order: a refused parameter, a refused result, a single key that the target provides already or that was met before, no key at all, a cycle. |
| `Declarations.ProvideHoldsDeclared` | provide.go:440-519 | An accepted Provide adds one constructor with exactly the declared parameters and results, and lists it, after those that were there, in exactly the target scope for exactly the declared keys. |
| `Declarations.AcceptedIsSeen` | scope.go:264-271 | It is seen for exactly the declared keys from exactly the scopes at and below the target. |
| `Declarations.PathGoesToRoot` | scope.go:148-171 | The way to the root goes from each scope to its parent and ends at a scope without one. |
| `Declarations.OwnProvidersFirst` | scope.go:264-271 | A scope sees its own providers, and after them those that its parent sees. |
| `Declarations.ExportGoesToRoot` | provide.go:441-446 | After every run of registrations the target of an exported constructor is scope 0, the only one without a parent, at or below which all scopes are. |
| `Declarations.ExportedIsSeenEverywhere` | provide.go:441-446 | An accepted Provide with Export makes its constructor visible from every scope, for exactly the declared keys. |
| `Declarations.DecorateHoldsDeclared` | decorate.go:247-268 | An accepted Decorate adds one decorator with exactly the declared parameters and results, registered in its scope for exactly the leaves of its results; a parameter is refused exactly if newParam refuses it. |
| `Declarations.InvokeAsksDeclared` | invoke.go:104-107 | Invoke refuses its arguments exactly if newParam does, and builds exactly the declared ones otherwise. |
| `RegistrationSteps.SubscopesMembers` | scope.go:156-162 | `appendSubscopes` collects exactly the scopes that have the given one on their way to the root. |
| `RegistrationSteps.RollbackUndoes` | graph.go:100-115 | Rolling back graphs that have grown since their snapshots gives back all node sequences. |
| `RegistrationSteps.CheckRejects` | provide.go:501-517 | The scope that is rejected is one of those checked, does not defer the check, and has a cycle. |
| `RegistrationSteps.ChecksPassed` | provide.go:501-517 | If none is rejected, every checked scope that does not defer has no cycle and is flagged, deferring ones are unflagged, and the others keep their flags. |
| `RegistrationSteps.CheckLeavesListed` | provide.go:510-512 | After a cycle in a descendant the target scope still lists the new constructor, because the old lists are put into the descendant's table. |
| `RegistrationSteps.ProvideForeseen` | provide.go:440-519 | Provide is rejected for a descendant's cycle exactly if nothing is wrong with the constructor itself, the target scope can take it and some scope below cannot. |
| `RegistrationSteps.ProvideIsAllOrNothing` | provide.go:440-519 | A Provide that fails leaves every scope's nodes and every key's providers as they were, if and only if it is not the scopes below the target alone that have the cycle. |
| `RegistrationSteps.ProvideKeepsInv` | provide.go:440-519 | Provide keeps the invariant, whether it succeeds or fails, unless a descendant alone has the cycle. |
| `RegistrationSteps.NewScopeKeepsInv` | scope.go:121-144 | So does Scope, which copies the orders of constructors only. |
| `RegistrationSteps.InvokedKeepsInv` | invoke.go:94-121 | So does Invoke, also when a parameter is bad, a dependency is missing or there is a cycle: it adds only group nodes without incoming edges. |
| `RegistrationSteps.DecorateKeepsInv` | decorate.go:247-268 | So does Decorate, also when it fails. |
| `RegistrationSteps.DecorateKeepsDecorators` | decorate.go:262-268 | Registered decorators stay registered in their own scope for keys they decorate; they stay registered for all their keys unless a Decorate meets a key that is decorated already. |
| `Runs.StepKeepsGood` | provide.go:440-519 | Each of the four operations keeps the invariant and the decorator tables in order. |
| `Runs.EveryRunIsSound` | invoke.go:104-121 | After every run of Provide, Scope, Decorate and Invoke without a rejection for a descendant's cycle alone: order indices are exact, edges in range, and a scope flagged as verified has no cycle. |
| `Runs.EveryRunIsWhole` | decorate.go:262-268 | After every such run in which no Decorate meets a decorated key, each decorator is registered for all its keys. |
| `Coverage.CallFalls` | param.go:338-356 | A call from one constructor to another is one edge, or two edges through a group node, of the scope's graph: a rank of the graph falls along it. |
| `Coverage.CheckIsExact` | graph.go:64-78 | Where no group parameter is older than the scope, its graph has a cycle exactly if the constructors in it cannot be ranked above the providers of their parameters. |
| `Coverage.AcyclicScopeCovers` | graph.go:64-78 | If the invoked scope's graph has no cycle, it sees no exported constructor and knows its group parameters, then all that can be called from it and from its ancestors is ranked: every Invoke from it ends. |
| `Coverage.DefaultCoversAllScopes` | provide.go:501-517 | Without deferral and export one ranking covers all scopes together. |
| `RegistryTables.ScopeTables.constructor` | container.go:151-159 | A new container has its root scope and nothing else. |
| `RegistryTables.ScopeTables.PathToRoot` | scope.go:148-171 | The scopes from the given one up to the root. |
| `RegistryTables.ScopeTables.RootScope` | scope.go:306-312 | The last of these, which has no parent. |
| `RegistryTables.ScopeTables.GetAllProviders` | scope.go:264-271 | The providers in all of these, the closest first. |
| `RegistryTables.ScopeTables.AppendSubscopes` | scope.go:156-162 | The scope and its descendants, parents before children, after what was there. |
| `RegistryTables.ScopeTables.NewGraphNode` | scope.go:283-288 | The recursion over the children adds the node once to exactly the scopes at or below the given one, with its index as its order in each. |
| `RegistryTables.SiblingsApart` | scope.go:156-162 | The subtrees of two children have no scope in common. |
| `RegistryTables.ScopeTables.TakeSnapshots` | graph.go:100-102 | The affected graphs remember their lengths. |
| `RegistryTables.ScopeTables.RollbackGraph` | graph.go:106-115 | Cuts the node sequence back to the snapshot and forgets it; does nothing without one. |
| `RegistryTables.ScopeTables.RollbackAll` | provide.go:454-460 | All affected graphs are cut back. |
| `RegistryTables.ScopeTables.NewParam` | param.go:529-558 | The parameter and the tables that the function says: a group parameter is numbered and put in the graphs of the scope and its descendants. |
| `RegistryTables.ScopeTables.NewParamObject` | param.go:360-395 | Field by field up to the first that is refused; nodes added before it stay. |
| `RegistryTables.ScopeTables.NewParamList` | param.go:116-138 | The same for the arguments of a function. |
| `RegistryTables.ScopeTables.GetParamOrder` | param.go:338-356 | The orders of all that a parameter depends on, as seen from the scope. |
| `RegistryTables.ScopeTables.EdgesFrom` | graph.go:64-78 | The edges of a node. |
| `RegistryTables.ScopeTables.CheckGraph` | invoke.go:116-121 | True exactly if the graph of the scope has no cycle; it is only called on graphs whose edges are in range. |
| `RegistryTables.ScopeTables.CheckAffected` | provide.go:501-517 | The flags of all affected scopes up to the first that is rejected. |
| `RegistryTables.ScopeTables.ListProvider` | provide.go:494-499 | The constructor is appended to the list of each of its keys, and the lists as they were are returned. |
| `RegistryTables.ScopeTables.RestoreProviders` | provide.go:510-512 | Exactly the given lists are put into the table of the given scope. |
| `RegistryTables.ScopeTables.Provide` | provide.go:440-519 | The outcome and the whole of the tables are those of the function `Provide`, in every state in which the check follows no edge out of a graph. |
| `RegistryTables.TablesAreInRange` | provide.go:501-517 | While the tables fit together this is so for every Provide. |
| `RegistryTables.ScopeTables.NewScope` | scope.go:121-144 | The whole of the tables is that of the function `NewScope`. |
| `RegistryTables.ScopeTables.Decorate` | decorate.go:247-268 | The outcome and the whole of the tables are those of the function `Decorate`: keys inserted before a conflict stay. |
| `Resolver.Env.BuildList` | param.go:147-157 | Ends whenever the constructors are ranked, whatever the decorators; whatever happens, nothing that was called, written, run or started is undone, and a decorator runs only if it was not started before, at most once. |
| `Resolver.Env.BuildSingle` | param.go:214-262 | The same, for the decorated lookup. |
| `Resolver.Env.BuildUndecorated` | param.go:264-310 | The same, for the lookup of a value or provider. |
| `Resolver.Env.CallDecorator` | decorate.go:106-162 | The same, for a decorator, whose arguments are built with one idle decorator less. |
| `Resolver.Env.BuildGroup` | param.go:622-652 | The same, for a value group. |
| `Resolver.Env.CallGroupDecorators` | param.go:579-599 | The same, for the decorators of a group from the root down. |
| `Evaluator.MeaningExists` | param.go:249-310 | Where constructors and decorators can be ranked, each has an outcome that is the outcome of its function on the values its parameters stand for. |
| `Evaluator.MeaningIsUnique` | param.go:249-310 | There is only one such table of outcomes. |
| `Refinement.BuildListAgrees` | param.go:147-157 | In an exact state the resolver returns what the evaluator says, value or failure, and leaves an exact state. |
| `Refinement.BuildSingleAgrees` | param.go:214-310 | The same for a single value, decorated or not, optional or not. |
| `Refinement.BuildGroupAgrees` | param.go:622-652 | The same for a value group, decorated or not. |
| `Refinement.CallCtorAgrees` | constructor.go:148-210 | In an exact state a call of a constructor succeeds exactly if it means success, and commits then what it means. |
| `Refinement.CallDecoratorAgrees` | decorate.go:106-162 | In an exact state, where decorators mean success, a call of a decorator that is not on the stack succeeds, leaves it called, and what it writes is what it means. |
| `Refinement.GroupIsContributions` | param.go:604-652 | When the visible providers of a group have been called, the values in the stores along the path are, as a multiset, the contribution of each of them exactly once. |
| `Refinement.CommitKeepsExact` | constructor.go:197-256 | Committing a constructor keeps the stores exact. |
| `Sessions.InvokeAgrees` | invoke.go:94-131 | One Invoke in an exact state returns what it means. |
| `Sessions.SessionAgrees` | invoke.go:94-131 | With the registrations fixed, every Invoke of a sequence returns what it means, whatever was invoked before it, from whichever scope, and whether or not that failed; the stores stay exact and no constructor is committed twice. |
| `Sessions.DecoratorsRunOnce` | decorate.go:106-162 | In every sequence of Invokes, failing ones included, and whatever is registered in between, no decorator's function runs twice, and none runs without having been started. |
| `Sessions.StartedDecoratorsStay` | decorate.go:106-162 | A decorator that is called stays called, one that has failed stays on the stack, and neither runs again. |
| `Commits.CallCtorCommits` | constructor.go:148-210 | Whatever is cached, fails or is decorated: while the arguments of a constructor are built only constructors ranked below it are committed, each of them once and none that was called before, so that the one test of `called` is enough. |
| `Commits.BuildListCommits` | param.go:147-157 | The same for all that is called for a parameter list. |
| `Commits.ConstructorsCommitOnce` | constructor.go:148-210 | In every sequence of Invokes, failing ones included, with registrations in between, soft and nameless groups and failing decorators: no constructor is committed twice, and it is committed exactly if it is called. Only the registrations are asked for anything: that constructors and decorators can be ranked together. |
| `Ledger.RunCtorAccounted` | constructor.go:197-256 | A run of a constructor is one entry of the log of commits, or none if it returns an error. |
| `Ledger.StoresAreReplayed` | constructor.go:197-256 | In every sequence of Invokes, with registrations in between and failures of any kind: replaying what the committed constructors returned, each to the scope it is provided to, gives exactly the values, the groups, the called constructors and the order of commits. |
| `Ledger.CalledLeaveValues` | param.go:306-309 | After every such sequence, a constructor that has been called has left a value for each of its single keys in its scope. |
| `Ledger.ProvidedValueIsFound` | param.go:306-309 | So the value that a single parameter reads after its providers have returned is there, if one of them registers the key as a single value. |
| `Independence.InvokeSame` | invoke.go:94-131 | What an Invoke does depends on the scope tree, the providers, the decorators and the user's functions only: not on ranks, graph nodes, flags and group parameters. |
| `Decoration.DecoratorRewrites` | decorate.go:226-242 | A decorator with any parameters and results that succeeds writes what its function makes of the value supplied to it for one key, all its other arguments at their meaning. |
| `Decoration.DecorationComposes` | param.go:214-247 | A single value at a scope means all its decorators from the outermost scope down to this one, applied in turn to what the provider visible from the outermost one made. Decorators may take and return anything else besides; they are asked only to succeed. |
| `Decoration.GroupDecorationComposes` | param.go:579-633 | A value group at a scope means all the decorators that return its slice type, from the outermost down, applied in turn to the multiset that is visible from the outermost of them. |
| `Guarantees.DecoratedRequest` | param.go:214-247 | From registrations: each request for a decorated value returns this composition, in whatever order scopes are asked, if the decorators can be ranked, succeed, and decorate what is provided. |
| `Guarantees.DecoratedGroupRequest` | param.go:579-633 | So does each request for a decorated group. |
| `Stacked.StackIsSound` | param.go:214-247 | The container at the end of a run with a decorator in the root and one in its child meets all that the agreement asks for. |
| `Stacked.StackedDecoratorsCompose` | param.go:214-247 | At the end of this run, after any Invokes from either scope, an Invoke from the child is given the value decorated by the root's decorator and then by its own. |
| `Guarantees.DecoratedIsSound` | decorate.go:247-268 | What runs of registrations establish has all that the agreement of resolver and evaluator needs, if constructors and decorators can be ranked together, the decorators succeed and what they decorate is provided; there are no soft and nameless groups. |
| `Guarantees.DecoratorFreeIsSound` | param.go:287-308 | Without decorators nothing more is asked than that the tables fit together and constructors can be ranked. |
| `Guarantees.AnswerAgrees` | invoke.go:94-131 | After any number of Invokes on the container, from any scopes and failing ones included, the next one returns what it means: values, an error, or the cycle that the graph of its scope has; the stores are exact and nothing is committed twice. |
| `Guarantees.DefaultContainerAgrees` | invoke.go:94-131 | From registration to result: after any run of registrations without deferral, export, decorators and descendant cycles, every Invoke from every scope ends and returns what it means, whatever was invoked before it. |
| `Guarantees.AcyclicScopeAgrees` | invoke.go:94-131 | The same for one scope whose graph has no cycle, in a container that may defer the check. |
| `Guarantees.DecoratedContainerAgrees` | invoke.go:94-131 | The same with decorators, after any run in which no key is decorated twice in a scope, where they can be ranked and succeed. |
| `Machine.PlayIsCalls` | invoke.go:94-131 | Registrations and Invokes in any order, with deferral, export and decorators, are to the stores a sequence of calls, each with the registrations of its moment. |
| `Machine.EveryRunCommitsOnce` | constructor.go:148-210 | After every run of this machine in which constructors and decorators can always be ranked together, no constructor has been committed twice, and it has been committed exactly if it is called. |
| `Machine.EveryRunDecoratesOnce` | decorate.go:106-162 | After every run of this machine, whether or not decorators can be ranked, no decorator's function has run twice. |
| `Machine.EveryRunIsReplayed` | constructor.go:197-256 | After every run of this machine the values, the groups, the called constructors and the order of commits are the replay of what the committed constructors returned, and a called constructor has left a value for each of its single keys. |
| `Requests.RequestAgrees` | invoke.go:94-131 | After any other Invokes, one that asks for a single value reports a missing type if the value is required and nobody provides it, else the cycle of its graph, else the value or the error that it means. |
| `Requests.OptionalRequest` | param.go:264-310 | From the registrations to the outcome, in every container without deferral, export and decorators: nobody provides it, or the first failing provider fails for want of something, and an optional value is zero and a required one is not built; it fails for another reason, and neither is built; none fails, and both are given what the provider made. |
| `Later.MeaningStays` | invoke.go:94-131 | Registrations that give what is there no other providers and decorators to look at change the meaning of none of it. |
| `Later.SettledStays` | invoke.go:94-131 | Registrations that do so for a set of constructors and decorators that needs nothing outside itself, and holds all that has been called, leave stores exact that were exact. |
| `Later.EveryInvokeAgrees` | invoke.go:94-131 | Registrations and Invokes in any order. Each registration is asked to spare what has been called: some set of constructors that holds it, and with each constructor all the providers that this one can see for its parameters, has for these parameters the same providers afterwards. Then every Invoke returns what it means with the registrations of the moment, the stores are exact and nothing is committed twice. |
| `Stale.LateProvideIsTooLate` | param.go:264-272 | A run in which a registration does so: the child goes on handing out a value that it would now make from another argument. |
| `Shuffle.Perm` | container.go:295-301 | Whatever is drawn, a permutation of the indices. |
| `Shuffle.ShuffledCopy` | container.go:295-301 | Every item is in the copy as often as in the original. |
| `ContainerRuntime.Container.constructor` | container.go:151-159 | A new container has empty stores. |
| `ContainerRuntime.Container.FindMissing` | invoke.go:190-212 | The required single parameters, at any depth, that have no provider and no decorated value. |
| `ContainerRuntime.Container.ShallowCheck` | invoke.go:176-188 | The same for all arguments. |
| `ContainerRuntime.Container.FindDecorator` | param.go:219-232 | The closest scope whose decorator is not on the stack. |
| `ContainerRuntime.Container.GetDecoratedValue` | param.go:201-208 | The decorated value of the closest scope that has one. |
| `ContainerRuntime.Container.GetDecoratedValues` | param.go:564-571 | The decorated slice of the closest scope that has one. |
| `ContainerRuntime.Container.Commit` | constructor.go:246-256 | In whatever order the maps are gone through: all staged values are set and all staged group values appended. |
| `ContainerRuntime.Container.ExtractDecorated` | result.go:385-389 | Exactly the decorated writes of the result tree go to the scope. |
| `ContainerRuntime.Container.ExtractDecoratedList` | result.go:247-260 | Decorated writes up to the first error, and they stay. |
| `ContainerRuntime.Container.BuildList` | param.go:147-157 | Result and stores are those of the function, for every container that is closed. |
| `ContainerRuntime.Container.Build` | param.go:484-490 | The same. |
| `ContainerRuntime.Container.BuildObject` | param.go:397-420 | The same. |
| `ContainerRuntime.Container.BuildSingle` | param.go:214-262 | The same. |
| `ContainerRuntime.Container.BuildUndecorated` | param.go:264-310 | The same. |
| `ContainerRuntime.Container.CallCtor` | constructor.go:148-172 | The same. |
| `ContainerRuntime.Container.RunCtor` | constructor.go:197-210 | The same: a constructor that returns an error leaves nothing in the stores. |
| `ContainerRuntime.Container.CallDecorator` | decorate.go:106-126 | The same. |
| `ContainerRuntime.Container.RunDecorator` | decorate.go:156-162 | The same. |
| `ContainerRuntime.Container.BuildGroup` | param.go:622-652 | The same, although every read of a group is shuffled. |
| `ContainerRuntime.Container.GetValueGroup` | scope.go:205-209 | A scope's values of a group, in any order. |
| `ContainerRuntime.Container.CollectGroup` | param.go:646-651 | The values of the group in all scopes up to the root, as a multiset. |
| `ContainerRuntime.Container.CallGroupProviders` | param.go:604-620 | Calls the providers of the group in all visible scopes up to the first that fails. |
| `ContainerRuntime.Container.CallGroupDecorators` | param.go:579-599 | Calls the decorators of the group from the root down, passing over those on the stack, up to the first that fails. |
| `ContainerRuntime.Container.Invoke` | invoke.go:94-131 | Outcome, tables and stores are those of the function `InvokedAnyhow`, in every state of the tables. An Invoke that comes to the search for a cycle is asked that no edge of this graph leads out of it, one that comes past it that all it can reach can be ranked; one that stops before, for a bad parameter or a missing dependency, is asked for nothing. The invariant is kept where it holds. |
| `Invocation.GoodIsInvokable` | invoke.go:94-131 | Where the invariant holds and the check is enough, no edge leads out of the graph, and the function is `InvokedFrom`. |
| `Invocation.InvokedFromIsStep` | invoke.go:94-121 | To the tables this Invoke is a step of the runs of registrations. |
| `Invocation.InvokedFromIsInvoke` | invoke.go:94-131 | To the stores it is what any view of the registrations that ranks all that can be reached says; a missing type is reported before a cycle, and a cycle exactly if the graph of the scope has one. |
| `Invocation.TractableIsChecked` | invoke.go:115-121 | The check is enough for every Invoke from a scope that sees no exported constructor and no group parameter older than itself. |
| `Invocation.DefaultIsChecked` | invoke.go:115-121 | It is enough for every Invoke from every scope of a container without deferral and export. |
| `DotGraph.Graph.constructor` | internal/dot/graph.go:158-168 | An empty graph. |
| `DotGraph.Graph.AddToGroup` | internal/dot/graph.go:309-315 | A grouped result is numbered by its place in its group. |
| `DotGraph.Graph.AddCtor` | internal/dot/graph.go:179-220 | Adds one constructor with its single and its group parameters apart and its results in order, and keeps the graph built: every value of a group has exactly one owner, and every parameter knows its consumers. |
| `DotGraph.Graph.AddMissingNodes` | internal/dot/graph.go:231-238 | Missing results are root causes exactly if there was none before. |
| `DotGraph.Graph.FailNodes` | internal/dot/graph.go:242-258 | Records the failure, as a root cause exactly if there was none before, and blames the constructor. |
| `DotGraph.Graph.FailGroupNodes` | internal/dot/graph.go:263-294 | Records exactly the results of the constructor that are in the group, in their order, and blames both; an unknown constructor cannot fail. |
| `DotGraph.Graph.RemoveParam` | internal/dot/graph.go:55-63 | The parameters without this key, in order. |
| `DotGraph.Graph.RemoveResult` | internal/dot/graph.go:114-122 | The group's results without this index, in order. |
| `DotGraph.Graph.PruneCtorParams` | internal/dot/graph.go:362-368 | Going through the recorded consumers removes the constructor's results from the parameters of all constructors. |
| `DotGraph.Graph.PruneGroupResults` | internal/dot/graph.go:388-400 | Its results are taken out of the groups that they name. |
| `DotGraph.Graph.PruneCtors` | internal/dot/graph.go:326-341 | Exactly the failed constructors are kept, in order, and nothing else than the results of the others is taken away. |
| `DotGraph.Graph.PruneGroups` | internal/dot/graph.go:344-357 | Exactly the failed groups are kept. |
| `DotGraph.Graph.PruneCtorGroupParams` | internal/dot/graph.go:372-383 | Exactly the group parameters of kept groups are kept. |
| `DotGraph.Graph.PruneSuccess` | internal/dot/graph.go:320-323 | The whole graph is that of the function `Prune`, and nothing in it dangles. |
| `DotGraph.PruneLeavesNothingDangling` | internal/dot/graph.go:320-400 | Kept are exactly the failed constructors and groups; no parameter asks for a key of a pruned constructor, no group parameter for a pruned group, and kept groups have all results of kept constructors. |
| `DotGraph.StaleResultsAreNamed` | internal/dot/graph.go:388-400 | A kept group shows a result of a pruned constructor if and only if this result has a name besides its group. |
| `DotGraph.NamedResultStays` | internal/dot/graph.go:388-400 | Such a graph, made by AddCtor and FailGroupNodes. |
| `DotGraph.DotKeysHaveOne` | result.go:468-483 | No result that the container puts in a graph has both a name and a group. |
| `DotGraph.NothingIsStale` | internal/dot/graph.go:388-400 | So in a graph made from the container a pruned graph shows no result of a pruned constructor. |
| `Limits.NamelessGroupIsNeverWritten` | group.go:52-67 | A run that provides a flattened group without a name: it registers a single key that no value is written for, and a function that asks for it is given no value at all. |
| `Limits.NamelessGroupsAreTheLimit` | result.go:518-535 | Every registered single key is written if and only if each nameless group key is also the key of a single result. |
| `Deferral.DeferredCheckMissesCycle` | scope.go:131-136 | A run, with the check deferred, that makes a child scope after a group parameter and a provider of the group after the child. At its end the invariant holds, an Invoke has searched the child's graph, found no cycle and flagged it as verified, and yet calls go in a circle. |
| `Deferral.ProvideWaits` | provide.go:501-508 | While the check is deferred in all scopes and none is flagged, an accepted Provide numbers and lists its constructor and changes nothing else. |
| `Limits.DescendantCycleIsNotUndone` | provide.go:501-512 | A run whose last Provide is rejected for the cycle of a child, after which the root still lists the constructor. |
| `Limits.RejectionLeavesDanglingEdge` | graph.go:106-115 | After it the child's graph has an edge to a node that it no longer has, and the child is to be checked again: the search of its next Invoke indexes its marks out of range. |
| `Limits.ExportHidesCycle` | param.go:287-288 | A run with two exported constructors, every Provide of which is accepted: no scope's graph has a cycle, and yet calls that hop between sibling scopes go in a circle. |
| `Limits.ConstructorRunsTwice` | constructor.go:148-210 | A run whose first Invoke runs and commits a constructor twice: the argument of the constructor has a decorator that depends back on it. |

## Where the code and its documentation disagree

- A constructor is documented to be called at most once. It commits at most once where decorators can be ranked together
  with constructors, so that none depends back on what consumes the value it decorates (`ConstructorsCommitOnce`); one that
  does makes the constructor run twice (`ConstructorRunsTwice`).
- A Provide that fails is meant to leave the container as it was. After a cycle in a descendant of the target scope it
  does not (`ProvideIsAllOrNothing`, `DescendantCycleIsNotUndone`), and an Invoke from that descendant then searches a graph
  with an edge that leads out of it (`RejectionLeavesDanglingEdge`).
- The comment in `param.go` that a value cannot be absent once its providers have returned holds for all keys but those of
  groups without a name (`ProvidedValueIsFound`, `NamelessGroupIsNeverWritten`, `NamelessGroupsAreTheLimit`).
- A value that has been resolved is kept, also when a later Provide shadows what it was made from
  (`LateProvideIsTooLate`).

## Left out

- Error texts, `String` methods, suggestions for missing types and the extraction of root causes: an error keeps its class,
  its culprit and whether a missing dependency is in its chain.
- Reflection and struct tags: the model starts from declared parameters and results, of which some are refused.
- The options of Provide are taken as already applied to the declared results; `options.Validate` is not modelled.
- Callbacks, clocks, recovery from panics, dry runs and the Info options.
- Scopes, nodes and groups are positions in tables instead of references, so that aliasing, of slices with shared backing
  arrays too, is not captured. The list `nodes` of a scope's own constructors, used for display only, is not kept.
- Dereferences that Go would answer with a panic (an edge out of range, a group parameter that is not a slice) are
  preconditions; for edges it is proved that they hold in every clean run.
- The agreement with the evaluator does not cover constructors that take soft groups; decorators take part in it where
  they can be ranked, succeed, and decorate what is provided. A decorator that fails stays on the stack and is passed over from then on, so
  that later requests are given what it would have replaced.
- Commits.ConstructorsCommitOnce: one way only; decorators that depend on each other in a circle without a constructor in it
  cannot be ranked and still make no constructor run twice.
- Later.EveryInvokeAgrees: one way only for registrations after an Invoke, and without decorators, deferral and export; a
  registration that shadows what a called constructor depends on may happen to change no value.
- Coverage.AcyclicScopeCovers: one way only; a scope whose graph has a cycle may still be safe to invoke for some parameters.
- ContainerRuntime.Container.Invoke: an Invoke that comes past the check for cycles is asked that what it can reach can be
  ranked, since otherwise the recursion may not end (`ExportHidesCycle`, `DeferredCheckMissesCycle`); one that comes to the
  check, that no edge leads out of the graph, since Go would panic (`RejectionLeavesDanglingEdge`).
- The text of the DOT output, its colours and attributes.
- `internal/digreflect`, `internal/digclock`, `internal/digtest` and `internal/digerror`.
