# Identity and access server: models and proofs

The server keeps users, organizations, menus, roles and policies for embedding
applications. Each module here models one part of it, in the form the code has:
objects that update their fields are classes whose methods are proved against
functions of the old state, loops are loops, and pure code is functions. The
main results are statements over all inputs, all runs or all interleavings.

- `Authoring`: fenced idempotent execution under receipts, leases and tokens.
- `LocaleMutation`: recovery of a half-done locale change by token and version.
- `PolicyCompilation`: policy expressions and data scopes compiled to predicates.
- `SchemaValidation`: the recursive schema checker and its diagnostics list.
- `ReportingPaths`, `OrganizationUnits`, `MenuGovernance`, `MenuRetirement`:
  hierarchies by parent id, over the shared `ParentGraph`, `Lookup`, `Ordering`.
- `StoreDelivery`: versioned deliveries of store organizations amid outside edits.
- `StoreCursor`, `Paging`, `StoreListing`, `UsageCounts`: cursors, pages, the walk
  along both, and account counters.
- `AdministratorCredential`: the one-time password of the first administrator.
- `MetadataRuntime`: two-phase reload and the project overlay of roles.
- `CandidateMutations`, over `KeyedLists`: metadata mutations as map updates.

Assumptions, each stated where it is used: hashes (SHA-256 of receipts, resources,
fingerprints and ids) are injective, so a hash stands for what was hashed; random
passwords are distinct; `idempotency.Classify` checks fingerprint, terminal status
and lease in that order, with a lease that has expired at its expiry instant; the
user's compare-and-set adds one to the version; a locked section, a database
statement or a transaction is one step; the SDK evaluates predicates as
`PolicyCompilation.Eval` says, resolves `$subject.` and `$context.` placeholders, and
lets an allowing field rule open, the other effects restrict, what its predicate
admits. Strings arrive, and are stored, trimmed.
Error codes of hidden constants are given readable names.

Where code and documentation differ the code is followed. These promises hold only
under a condition, which is proved exact, and can fail:

- replay of a result (`Authoring.ReplayAgrees`, `Authoring.LostInReplay`);
- a failed locale receipt as a sign of no change (`LocaleMutation.FailedTellsIff`,
  `LocaleMutation.OwnFailureTellsIff`,
  `LocaleMutation.FailedAfterTakeOverMayHaveChanged`);
- malformed policy fragments failing closed (`PolicyCompilation.PlaceFailsClosedIff`,
  `PolicyCompilation.OpenFragments`). They do arrive: nothing applies the rules for
  policy expressions to the roles of a manifest
  (internal/domain/metadata/validation/metadata_identity_schema_validation.go:314-367),
  and project roles decode field policies unchecked
  (internal/assembly/module/project_roles.go:164-176);
- literals that read as placeholders (`PolicyCompilation.LiteralKeptExactly`);
- bundle and storage filter over blank ids (`PolicyCompilation.BundleAgreesWithFilter`);
- an end of schema validation, of unit resolution and of menu retirement
  (`SchemaValidation.EndsIffNoCycle`, `SchemaValidation.CycleNeverEnds`,
  `OrganizationUnits.SeedEndsIff`, `MenuRetirement.RetirementEndsIff`);
- reporting paths that do not depend on order (`ReportingPaths.PathsIgnoreOrderIff`,
  `ReportingPaths.CyclicPathsDiffer`);
- delivery state that matches its own row (`StoreDelivery.StateMatchesRowIff`,
  `StoreDelivery.RenamedStoreMismatches`, `StoreDelivery.MismatchBlocksForGood`);
- cursors of very long ids (`StoreCursor.RoundTrip`, `StoreCursor.LongerIdMayNotComeBack`,
  `StoreListing.WalkListsAllIff`, `StoreListing.LongIdCutsOff`);
- unique keys of the members that a new object brings
  (`CandidateMutations.KeysStayUniqueIff`, `CandidateMutations.RunKeepsUniqueIff`,
  `CandidateMutations.RepeatedFieldArrives`).

## Model

| member | source | states |
|---|---|---|
| Authoring.MemoryRepository.Claim | internal/application/authoring/repository.go:28-51 | A new key stores the candidate; a known key is classified, and only a take-over writes: new owner, new lease, token one higher. The whole new table and the answer are given; how long the lease keeps others out is `Authoring.LeaseKeepsOthersOut`. |
| Authoring.MemoryRepository.Complete | internal/application/authoring/repository.go:53-70 | Only the receipt with this id is completed, and only while its owner and token hold the lease; otherwise the table is unchanged and the refusal is told apart. |
| Authoring.CompleteInAt | internal/application/authoring/repository.go:53-70 | At most one receipt is addressed by a completion, so the order in which the table is ranged over does not matter. |
| Authoring.LeaseKeepsOthersOut | internal/application/authoring/repository.go:28-51 | After a claim granted at clock t, fresh or a take-over, a repeat of the request is in progress and changes nothing at any clock before t + 30 seconds, and is granted with the next token and a lease of its own from then on. |
| Authoring.GrantHoldsInRuns | internal/application/authoring/repository.go:28-70 | The same in every run: while nothing ends the grant, a free worker that repeats the request is turned away before t + 30, and from then on gets the record with the next token. |
| Authoring.RecordsApart | internal/application/authoring/service.go:236-239 | Records of different keys never share a place, as long as no workspace id holds the separator. |
| Authoring.ReplayAgrees | internal/application/authoring/service.go:183-228 | A terminal receipt answers like the worker that completed it: in operation, error kind and code if and only if the stored value can be read back, that is, nests within the decoder's depth and has no number out of range; in value and hash if and only if moreover the result could be encoded and every number in it survives a float64. |
| Authoring.ReadBackIff | internal/application/authoring/service.go:214-220 | A value of any shape comes back as it was if and only if each number in it does. |
| Authoring.LostInReplay | internal/application/authoring/service.go:187-220 | The two smallest failing cases: 2^53 + 1 comes back as its neighbour, and a result that cannot be encoded does not come back. |
| Authoring.EveryRunIsSafe | internal/application/authoring/repository.go:28-70 | In every run of claiming, stalling, crashing and late workers each grant of a record carries a larger token than all before, at most one completion succeeds and its worker holds the newest token, no grant follows it, and every replay repeats that completion as far as it can be stored and read. |
| Authoring.CallsWithinGrants | internal/application/authoring/service.go:178-183 | In every run the owner's callback of a record is called at most once a grant, by the worker it was granted to: a second call needs a take-over. |
| Authoring.EveryReceiptEvolves | internal/application/authoring/repository.go:28-70 | From any reachable state on, a receipt keeps its fingerprint and identity, its token never falls, and once terminal it never changes. |
| Authoring.FinishedRequestsOnlyReplay | internal/application/authoring/service.go:155-228 | After a completion, repeating the request changes no receipt, gives no work to a worker and answers like the completion; another fingerprint under the key is refused. |
| Authoring.Service.ExecuteManaged | internal/application/authoring/service.go:155-205 | One call leaves the receipts as its own claim, execute and complete steps do, answers what that run logs, and refuses a reused key and a live lease exactly when it should. |
| Authoring.UpsertReports | internal/application/authoring/service.go:41-117 | The owner runs exactly when the resource was read and is the one expected; the first error on the way, the owner's own included, is the outcome's; only an owner that succeeded and whose resource was read back has its value and the new hash returned. |
| Authoring.UpsertHashIsATicket | internal/application/authoring/service.go:41-117 | The hash one upsert returns lets the next upsert reach the owner if and only if the resource is still what the first one left. |
| LocaleMutation.AuthService.UpdateUserLocale | internal/application/auth/auth_mutation_application_service.go:110-121 | The assumed compare-and-set: it writes the locale and version expected+1 only on a matching version, and each way it can fail leaves a stated state. |
| LocaleMutation.AuthService.CompleteLocaleMutation | internal/application/auth/auth_mutation_application_service.go:145-155 | Only the holder of the lease completes the receipt, with the status its result implies. |
| LocaleMutation.AuthService.UpdateCurrentUserLocaleIdempotent | internal/application/auth/auth_mutation_application_service.go:33-134 | One undisturbed call: rejections and a reused key come before any state is touched; otherwise its rows are those that the worker's own steps leave, and its answer tells about them: a success shows the profile that is stored, a receipt that this call failed is answered with the error stored, a success is no replay if and only if this call changed the user and completed, and a replay repeats what is stored. |
| LocaleMutation.CallTells | internal/application/auth/auth_mutation_application_service.go:74-134 | The same of every call as a function of user, receipt, clock and fault. |
| LocaleMutation.CallSucceedsIff | internal/application/auth/auth_mutation_application_service.go:106-134 | Without a fault, a first call succeeds if and only if the user is at the expected version; otherwise the user is untouched and the error says whether it is missing or at another version. |
| LocaleMutation.GrantHoldsInRuns | internal/infrastructure/persistence/database/auth/auth_mutation_store.go:59-86 | In every run, after a grant at clock t, a free worker's claim changes nothing before t + 30 seconds and takes over with the next token from then on. |
| LocaleMutation.EveryRunIsSafe | internal/application/auth/auth_mutation_application_service.go:74-134 | In every interleaving, late workers after a take-over, edits and deletions of the user included, the workers of one key change the user at most once; a succeeded receipt means the user at version expected+1 had the requested locale and its profile is a state the user really had; a receipt that failed under one of the first two tokens means that the change was not made under that token. |
| LocaleMutation.OwnFailureTellsIff | internal/infrastructure/persistence/database/auth/auth_mutation_store.go:59-86 | A take-over updates the row and reads it back by another statement, so that two workers can hold one token: over all runs that end in a failure under a given token, nothing was changed under that token if and only if it is one of the first two, or the user was past the expected version from the start. |
| LocaleMutation.FailedFirstGrantChangedNothing | internal/application/auth/auth_mutation_application_service.go:74-134 | A receipt that failed under its first grant means that the key changed nothing. |
| LocaleMutation.FailedTellsIff | internal/application/auth/auth_mutation_application_service.go:74-134 | Over all runs that end in a failure under a given token, the failure tells that the key changed nothing if and only if that token is the first, or the user was past the expected version from the start. |
| LocaleMutation.FailedAfterTakeOverMayHaveChanged | internal/application/auth/auth_mutation_application_service.go:74-134 | The smallest failing case: a run to token two ends with a failed receipt for a change that was made. |
| PolicyCompilation.CompileKeepsMeaning | internal/adapter/identitysdk/binding.go:747-787 | For every well-formed policy expression the compiled predicate, evaluated against the bundle's subject, admits exactly the records the expression admits for the principal. |
| PolicyCompilation.LeafKeepsMeaning | internal/adapter/identitysdk/binding.go:767-786 | The same for one comparison, with its operator, claim or literal and relation path. |
| PolicyCompilation.ClaimsResolve | internal/adapter/identitysdk/binding.go:789-809 | Every claim, in any letter case, resolves from the placeholder it compiles to, to the value it has for the principal. |
| PolicyCompilation.LiteralKeptExactly | internal/adapter/identitysdk/binding.go:771-786 | An equality with one literal keeps its meaning for all principals, contexts and records if and only if the literal does not read as a placeholder. |
| PolicyCompilation.FieldRuleFailsClosed | internal/adapter/identitysdk/binding.go:811-827 | A field rule lets no more through than intended, whatever its malformed fragments were meant to say, when each of them errs to the safe side of its place: it admits nothing where more would loosen the rule, and everything where less would. For a rule that denies, hides or masks the sides are exchanged. |
| PolicyCompilation.SafeFragmentsErrSafely | internal/adapter/identitysdk/binding.go:747-787 | The same of any expression, from inside: the compiled predicate admits at most, or at least, what was intended. |
| PolicyCompilation.PlaceFailsClosedIff | internal/adapter/identitysdk/binding.go:747-787 | For every malformed fragment, place and effect: the rule lets no more through than intended, over all principals, contexts, records and meanings of the fragment, if and only if the fragment is an empty "or", has nothing to compare or compares with an unknown placeholder, where the effect and the negations around it do not turn it around, or is an empty "and" where they do. |
| PolicyCompilation.OpenFragments | internal/adapter/identitysdk/binding.go:747-770 | The smallest failing cases, one for each effect: a rule that allows under an empty "and", and one that denies, hides or masks under a comparison without a field. |
| PolicyCompilation.IntendedIsMeaning | internal/adapter/identitysdk/binding.go:747-787 | Without malformed fragments what is intended is the meaning of the expression, whatever is read into fragments. |
| PolicyCompilation.EffectiveDataPredicate | internal/adapter/identitysdk/binding.go:686-711 | Under a project's own data policy that compiles, a record is admitted if and only if the policy admits it, for all subjects, contexts and records and whatever the scopes; under an invalid one nothing is. Otherwise the loop yields the predicate of the scopes: unrestricted in any position absorbs the rest, one scope stands alone, several are alternatives, none admits nothing. |
| PolicyCompilation.CustomReplacesScopes | internal/adapter/identitysdk/binding.go:686-691 | What a policy that compiles, and one that is invalid, make of the bundle, for every list of scopes. |
| PolicyCompilation.OwnRecordsOnly | internal/adapter/identitysdk/binding.go:686-691 | From end to end: under the policy that the owner is the caller, exactly the caller's own records are admitted. |
| PolicyCompilation.ClaimsMean | internal/adapter/identitysdk/binding.go:789-809 | Which claim, in any letter case, is which value of the principal; all others are asked of the request. |
| PolicyCompilation.LiteralLeafMeans | internal/adapter/identitysdk/binding.go:771-787 | What a comparison with literals admits, told from the record alone. |
| PolicyCompilation.ScopesKeepMeaning | internal/adapter/identitysdk/binding.go:686-711 | The predicate of a list of scopes admits a record exactly when some scope of the list covers it. |
| PolicyCompilation.FilterCovers | internal/domain/identity/contract/identity_access_contract.go:62-93 | The storage filter made from the same scopes allows a record exactly when some scope covers it, when no blank id is involved. |
| PolicyCompilation.BundleAgreesWithFilter | internal/adapter/identitysdk/binding.go:832-847 | Bundle and storage filter decide alike on all records that name their owners, and on all records if and only if a scope is unrestricted or no scope contains a blank id. |
| PolicyCompilation.Grants | internal/adapter/identitysdk/binding.go:624-637 | Functions are granted for exactly the permissions that name an object and an action, each pair once. |
| PolicyCompilation.AccessBundle | internal/adapter/identitysdk/binding.go:619-637 | The loops build the principal's subject and these grants. |
| SchemaValidation.NoDiagnosticIffConforms | capability/contract.go:622-705 | The diagnostics for a value are empty if and only if the value conforms to a declarative reading of the schema: references followed, exactly one alternative, types, enumerations, required and unknown members, elements and bounds. |
| SchemaValidation.EndsIffNoCycle | capability/contract.go:622-705 | The recursion of the validator ends on every schema and value if and only if no chain of references and alternatives returns to where it started; on a definition of such a cycle it ends for no value. |
| SchemaValidation.CycleNeverEnds | capability/contract.go:622-646 | For a definition on a cycle no depth of nested calls is enough, whatever the value. |
| SchemaValidation.GuardedIffNoCycle | capability/contract.go:622-646 | Definitions can be ranked, the condition the validator is proved under, if and only if there is no such cycle. |
| SchemaValidation.ReferenceDescends | capability/contract.go:623-632 | Following a reference goes to a lower level, which is why chains of references end. |
| SchemaValidation.Validate | capability/contract.go:622-705 | The recursive checker appends exactly the specified diagnostics to the shared list: what was there stays as a prefix. Which they are is `SchemaValidation.DiagnosticsAreViolations`. |
| SchemaValidation.DiagnosticsAreViolations | capability/contract.go:622-705 | Each rule is reported at each place exactly as often as the value that is looked up there breaks it under the schema that is looked up with it, once for each missing name, and nothing is reported anywhere else. |
| SchemaValidation.DiagnosticsBelow | capability/contract.go:622-705 | Every diagnostic is at the path that validation started from, or below it. |
| SchemaValidation.MissingInOrder | capability/contract.go:656-660 | Missing names are reported in the order of the list. |
| SchemaValidation.MembersInOrder | capability/contract.go:661-675 | The faults of members are reported in the order of the names. |
| SchemaValidation.MemberOfWrongType | capability/contract.go:674 | The example: a number under a property of strings is reported once, at the member's own name. |
| SchemaValidation.IntegersFit64Bits | capability/contract.go:706-722 | A whole number in decimal is an integer if and only if it fits into 64 bits. |
| SchemaValidation.CountMatches | capability/contract.go:633-646 | The loop over alternatives counts exactly those the value conforms to, each validated into a list of its own. |
| SchemaValidation.ValidateArray | capability/contract.go:676-684 | Bounds and every element of an array are checked, in order. |
| SchemaValidation.ValidateMembers | capability/contract.go:661-675 | Members are checked in the sorted order of their keys, whatever order the map is ranged over. |
| SchemaValidation.FindMissing | capability/contract.go:656-660 | Each required name that is absent is flagged, in the order of the list, and no other. |
| ReportingPaths.Resolver.Resolve | internal/application/identity/manifest_identity_seed.go:147-169 | On any manager graph, cycles included, the memoised climb ends, and both the path it returns and the paths it remembers are given exactly by what was remembered and is being visited. |
| ReportingPaths.FillReportingPaths | internal/application/identity/manifest_identity_seed.go:142-173 | Every user in the list gets, in place, the path that the climbs in the order of the list give its id, and nothing else about it changes. |
| ReportingPaths.PathsFit | internal/application/identity/manifest_identity_seed.go:147-169 | For any manager graph the paths of a seed fit it, one for every id: non-empty, ending in their user, repeating nobody, stepping from manager to report, each prefix being the path of the user it ends in. |
| ReportingPaths.PathIsWholeChain | internal/application/identity/manifest_identity_seed.go:150-169 | A user whose managers run out has the full chain from the top as its path, whatever cycles exist elsewhere; a user's path starts on a cycle if and only if its managers never run out. |
| ReportingPaths.PathsIgnoreOrderIff | internal/application/identity/manifest_identity_seed.go:142-173 | Users with distinct ids get the same paths in every order of the list if and only if every cycle of managers is someone managing himself. |
| ReportingPaths.CyclicPathsDiffer | internal/application/identity/manifest_identity_seed.go:142-173 | The smallest failing case: two users who manage each other, with the paths that each of the two orders gives. |
| OrganizationUnits.Resolver.Resolve | internal/application/identity/manifest_identity_seed.go:183-213 | The memoised climb ends exactly because the chain of configured parents does, and gives the unit with the whole chain as path, the chain without itself as ancestors, and their number as depth. |
| OrganizationUnits.ResolveAll | internal/application/identity/manifest_identity_seed.go:219-222 | Resolving the ids in turn, with memory shared, gives each unit as if resolved alone. |
| OrganizationUnits.SortedIds | internal/application/identity/manifest_identity_seed.go:214-218 | The ids come out sorted whatever order the map is ranged over. |
| OrganizationUnits.OrganizationUnits | internal/application/identity/manifest_identity_seed.go:175-233 | The seed's units are those of all configured ids, stably sorted by depth, sort order and id. |
| OrganizationUnits.EachUnitOnce | internal/application/identity/manifest_identity_seed.go:214-233 | The list holds the unit of every configured id once and nothing else, sorted. |
| OrganizationUnits.SeedEndsIff | internal/application/identity/manifest_identity_seed.go:183-222 | The recursion that resolves units ends for every unit of a seed if and only if no configured parents form a cycle. |
| OrganizationUnits.ResolveEndsIff | internal/application/identity/manifest_identity_seed.go:183-213 | For one unit it ends if and only if its chain of parents does, whatever was resolved before. |
| OrganizationUnits.ParentsComeFirst | internal/application/identity/manifest_identity_seed.go:199-233 | A unit has ancestors if and only if its parent is configured; then the parent stands earlier in the list and its path is the unit's ancestors. |
| OrganizationUnits.UnitsIgnoreOrder | internal/application/identity/manifest_identity_seed.go:175-233 | With distinct ids the list does not depend on the order of the seed. |
| OrganizationUnits.UnitsInOrder | internal/application/identity/manifest_identity_seed.go:219-233 | The units stand by depth, then sort order, then id. |
| MenuGovernance.ValidateMenuParentChain | internal/application/identity/identity_governance_reference_application_service.go:102-116 | The walk ends and reports nothing exactly when the chain reaches a menu without a parent, a cycle exactly when the chain never ends, and otherwise the very id at which the chain breaks off. |
| MenuGovernance.ValidateMenu | internal/application/identity/identity_governance_reference_application_service.go:70-100 | All issues of a candidate in order: a blank id, each stored menu with the same key, then the parent issue. |
| MenuGovernance.NoIssueIffRooted | internal/application/identity/identity_governance_reference_application_service.go:102-116 | There is no parent issue if and only if the chain of parents reaches a menu without a parent. |
| MenuGovernance.NoIssueIffForestKept | internal/application/identity/identity_governance_reference_application_service.go:95-116 | Among stored menus that form a forest, the candidate has no parent issue if and only if the menus with the candidate saved still form a forest. |
| MenuGovernance.ValidationForetellsSaving | internal/domain/identity/service/identity_permissions_menus.go:51-107 | Validating ahead finds issues if and only if saving is refused, and the first issue is the reason saving gives. |
| MenuGovernance.Governance.UpsertMenu | internal/domain/identity/service/identity_permissions_menus.go:51-107 | Saving stores the menu under its id or changes nothing and says why; a forest stays a forest. |
| MenuGovernance.SavingKeepsKeysApart | internal/domain/identity/service/identity_permissions_menus.go:51-107 | Saving never makes two menus share a key, whatever the folding of letter case. |
| MenuGovernance.RefusalsTell | internal/domain/identity/service/identity_permissions_menus.go:51-107 | What each refusal says about the menu and the stored ones. |
| MenuRetirement.GroupByParent | internal/application/identity/manifest_identity_seed.go:352-363 | The table lists under each parent id exactly its menus, and the retired ids are those of menus with a retired key. |
| MenuRetirement.Store.RemoveIdentityMenu | internal/infrastructure/persistence/database/identity/identity_store_memory_policies.go:87-113 | Removing an unknown menu fails; any call may fail; success removes exactly the menu. |
| MenuRetirement.Retirement.RemoveTree | internal/application/identity/manifest_identity_seed.go:366-380 | Removal of a tree ends, removes nothing outside the tree, each menu once and after all its children, and stops only when the store fails. |
| MenuRetirement.Retirement.RemoveChildren | internal/application/identity/manifest_identity_seed.go:370-374 | All children are removed before their parent is touched. |
| MenuRetirement.RetireRemovedMenus | internal/application/identity/manifest_identity_seed.go:344-387 | When no retired menu lies on a cycle, whatever order the map of retired ids is ranged over and whichever calls to the store fail: it ends; success removes exactly the retired menus and all their descendants; a failure of the store leaves only such menus removed, children first. |
| MenuRetirement.AllDoomedRemoved | internal/application/identity/manifest_identity_seed.go:364-387 | A finished retirement has removed every descendant of every retired menu. |
| MenuRetirement.RetirementKeepsForest | internal/application/identity/manifest_identity_seed.go:366-387 | Wherever a retirement stops, no remaining menu has lost its parent: a forest stays a forest. |
| MenuRetirement.RetirementEndsIff | internal/application/identity/manifest_identity_seed.go:366-387 | In whatever order the retired menus are taken, their removal from a store that never fails ends if and only if none of them lies on a cycle of parents; cycles elsewhere do no harm. |
| MenuRetirement.ForestIsAcyclic | internal/application/identity/manifest_identity_seed.go:366-380 | Menus that governance keeps a forest satisfy what retirement needs in order to end. |
| StoreDelivery.Service.Deliver | internal/application/identity/identity_store_organization_delivery_application_service.go:74-142 | One delivery as one transaction: reused keys, replays, refusals, conflicts and a failing audit leave everything as it was; an applied one writes unit, state and receipt together. |
| StoreDelivery.Service.PrepareMutation | internal/application/identity/identity_store_organization_delivery_application_service.go:339-421 | The checks of a mutation in their order, with the error of the first that fails or the unit to write. |
| StoreDelivery.Service.Execute | internal/infrastructure/persistence/database/identity/identity_store_organization_delivery_store.go:187-268 | A create stores version one; a rename or disable writes only its own column, the version after the expected one, and the prepared unit as the new state. |
| StoreDelivery.EveryRunIsSafe | internal/application/identity/identity_store_organization_delivery_application_service.go:339-421 | In any run mixed with edits from outside, each key is applied at most once, the scope of its caller reached the unit or, for a create, its parent, and a rename or disable of a unit with delivery state is applied only to the very unit the last delivery left, at the version it left, giving the next version. |
| StoreDelivery.AppliesIff | internal/application/identity/identity_store_organization_delivery_application_service.go:339-421 | A delivery with a new key is applied if and only if the request is complete, the caller's scope reaches the unit or, for a create, its parent, the unit is as the last delivery left it, its parent is a company, active for a create, the domain accepts the wanted row, and it is audited. |
| StoreDelivery.OutOfScope | internal/application/identity/identity_store_organization_delivery_application_service.go:349-366 | A complete request outside its caller's scope never changes anything and always fails, as a denied scope when its unit is found as the operation needs it. |
| StoreDelivery.RefusalsTell | internal/application/identity/identity_store_organization_delivery_application_service.go:339-421 | What each error of a delivery says about the request, its caller and the stored unit. |
| StoreDelivery.FirstFault | internal/application/identity/identity_store_organization_delivery_application_service.go:339-421 | The error of a delivery is that of the first check that fails: everything checked before is in order. |
| StoreDelivery.AppliedLeaves | internal/infrastructure/persistence/database/identity/identity_store_organization_delivery_store.go:187-268 | An applied delivery leaves the wanted row, the version after the expected one, the result under its key and everything else as it was, and reports what it left. |
| StoreDelivery.UpdateReplaysIff | internal/application/identity/identity_store_organization_delivery_application_service.go:144-189 | In every later run, repeating a rename or disable gives its original result if and only if the caller's scope still reaches the unit. |
| StoreDelivery.UsedKeyOnlyReplays | internal/application/identity/identity_store_organization_delivery_application_service.go:100-141 | After a delivery, any later use of its key in any run changes nothing: it gives the original result for the same request and caller, or fails; another request or caller always gets the reuse error. |
| StoreDelivery.RunVersionsCount | internal/application/identity/identity_store_organization_delivery_application_service.go:405-419 | In every run, outside edits included, a unit has delivery state if and only if a delivery was applied to it, and its version is the number of those deliveries, plus one if it was not created by one. |
| StoreDelivery.VersionsCount | internal/application/identity/identity_store_organization_delivery_application_service.go:405-419 | The same of the last delivery in any log that a run can have. |
| StoreDelivery.StateMatchesRowIff | internal/application/identity/identity_store_organization_delivery_application_service.go:393-419 | After an applied delivery the recorded state equals the stored row if and only if it was a create, or the row's path, ancestors and depth were those derived from the parents before and, for a rename, its status was not blank. |
| StoreDelivery.MismatchBlocksForGood | internal/application/identity/identity_store_organization_delivery_application_service.go:393-419 | A unit whose row and state differ keeps both through any run of deliveries, and none is ever applied to it. |
| StoreDelivery.RenamedStoreMismatches | internal/domain/identity/service/identity_organization_units_users.go:88-160 | The failing sides are reachable: renaming a store is applied whatever its row says of its place and status, and leaves row and state different if that place is out of date or the status blank. |
| StoreDelivery.DeliveriesOnlyChangeNamesAndDisable | internal/application/identity/identity_store_organization_delivery_application_service.go:343-386 | Deliveries alone never lose a unit, never change code, kind, parent, path or order, never touch other kinds of unit, and change a status only to disabled. |
| StoreDelivery.CreateAlwaysReplays | internal/application/identity/identity_store_organization_delivery_application_service.go:144-189 | After any further deliveries, renames and a disable of the store among them, repeating a create gives its original result if and only if the caller may still create under that company. |
| StoreDelivery.CreateReplaysIff | internal/application/identity/identity_store_organization_delivery_application_service.go:144-189 | In any run, outside edits included, a create is replayed for its caller if and only if the store's row is exactly what the last delivery left, the parent is an active company, and the caller may create under it. |
| StoreDelivery.DerivedIsChain | internal/application/identity/identity_store_organization_delivery_application_service.go:393-396 | A derived path is the chain of parents down to the unit, and there is one for every unit of a hierarchy without cycles or missing parents. |
| StoreCursor.RoundTrip | internal/application/identity/identity_store_organization_delivery_application_service.go:274-304 | For every id, decoding its encoded cursor gives the trimmed id if and only if it is not blank, has at most 255 bytes and its cursor at most 2048 characters; otherwise the cursor is refused. |
| StoreCursor.ShortIdsComeBack | internal/application/identity/identity_store_organization_delivery_application_service.go:274-304 | Every trimmed, non-blank id of at most 252 bytes comes back. |
| StoreCursor.PlainIdsComeBack | internal/application/identity/identity_store_organization_delivery_application_service.go:274-304 | An id without characters to escape comes back if and only if it has at most 255 bytes. |
| StoreCursor.LongerIdMayNotComeBack | internal/application/identity/identity_store_organization_delivery_application_service.go:274-304 | 252 cannot be raised: an id of 253 control characters makes a cursor of 2052 characters, which is refused. |
| StoreCursor.Base64Reads | internal/application/identity/identity_store_organization_delivery_application_service.go:279-292 | Unpadded base64url (section 5 of RFC 4648) decodes what it encodes, for all bytes. |
| StoreCursor.Utf8Reads | internal/application/identity/identity_store_organization_delivery_application_service.go:279-292 | UTF-8 decodes what it encodes, for all texts. |
| StoreCursor.StringReads | internal/application/identity/identity_store_organization_delivery_application_service.go:274-298 | A JSON string (section 7 of RFC 8259), with the escapes the encoder chooses, reads back, whatever follows it. |
| StoreCursor.EscapedSize | internal/application/identity/identity_store_organization_delivery_application_service.go:274-280 | Escaping makes at most six bytes of one; control characters without a short form make exactly six, plain ones stay. |
| StoreCursor.EncodedSize | internal/application/identity/identity_store_organization_delivery_application_service.go:274-280 | The exact length of a cursor: 21 bytes beside the escaped id, four characters for three bytes. |
| Paging.PageSize | internal/application/identity/identity_workspace_usage_application_service.go:253-261 | Zero means fifty, one to a hundred stand, everything else is refused. |
| Paging.ValidateCatalog | internal/application/identity/identity_workspace_usage_application_service.go:285-301 | One pass accepts a catalog page if and only if it has the expected revision and at most the asked size, every entry is usable, and the ids ascend strictly after the cursor; the two errors are told apart. |
| Paging.List | internal/application/identity/identity_workspace_usage_application_service.go:109-148 | A page holds at most its size, and carries the last id as next cursor exactly when one more row was there. |
| Paging.WalkAscends | internal/application/identity/identity_workspace_usage_application_service.go:119-148 | Whatever the authority returns, the ids listed along next cursors ascend strictly across all pages, none twice, all of one revision. |
| Paging.HonestWalkListsAll | internal/application/identity/identity_workspace_usage_application_service.go:109-148 | When the source returns the rows after the cursor, a walk is never refused, lists all n rows once in order, and ends after max(1, ceil(n / page size)) pages. |
| StoreListing.WalkListsAllIff | internal/application/identity/identity_store_organization_delivery_application_service.go:217-257 | A walk along next cursors lists every store once in order, on max(1, ceil(n / page size)) pages, if and only if the last id of every page but the last fits into a cursor; otherwise it stops at a cursor that the service made and refuses. |
| StoreListing.LongIdCutsOff | internal/application/identity/identity_store_organization_delivery_application_service.go:217-257 | The smallest failing case: with one store a page the list stops behind a store whose id is 253 control characters. |
| StoreListing.ShortIdsAreAllListed | internal/application/identity/identity_store_organization_delivery_application_service.go:217-257 | Trimmed ids of at most 252 bytes are all listed. |
| StoreListing.PageAfter | internal/application/identity/identity_store_organization_delivery_application_service.go:225-256 | After the n-th store a page holds the next stores up to its size, and the encoded last id as next cursor exactly when more follow. |
| UsageCounts.ApplyGroups | internal/application/identity/identity_workspace_usage_application_service.go:314-352 | The in-place fold succeeds if and only if every group is sound and none repeats; then each row holds the totals of its workspace; otherwise the error is that of the first faulty group. |
| UsageCounts.GroupCountsTo | internal/application/identity/identity_workspace_usage_application_service.go:330-350 | Which counter a group of accounts adds to: deleted accounts to none. |
| UsageCounts.ApplyRoleCounts | internal/application/identity/identity_workspace_usage_application_service.go:354-376 | Role counts are applied if and only if each is known, positive, unrepeated and within the active human accounts; nothing else in a row changes. |
| UsageCounts.CountUsage | internal/application/identity/identity_workspace_usage_application_service.go:229-251 | A count succeeds exactly for acceptable groups and fitting role counts, and gives one row a workspace, in the order asked for. |
| UsageCounts.CountersAddUp | internal/application/identity/identity_workspace_usage_application_service.go:330-350 | The four counters of a workspace add up to its accounts that are not deleted. |
| UsageCounts.RolesWithinActive | internal/application/identity/identity_workspace_usage_application_service.go:366-373 | Accounts with an active role never outnumber active human accounts. |
| UsageCounts.CountsIgnoreOrder | internal/application/identity/identity_workspace_usage_application_service.go:314-352 | Reordering the groups changes neither whether a count succeeds nor its result. |
| UsageCounts.CountedRows | internal/application/identity/identity_workspace_usage_application_service.go:229-251 | Both facts, for every row of a successful count. |
| AdministratorCredential.Binding.Bootstrap | internal/assembly/module/installation_administrator_bootstrap.go:28-98 | A known receipt is replayed or conflicts; a fresh one is inserted in the open transaction and its password kept in memory, replacing any left there. |
| AdministratorCredential.Binding.Complete | internal/assembly/module/installation_administrator_bootstrap.go:100-135 | A rollback forgets the password; a commit marks it only when the receipt is really committed and matches, and forgets it otherwise. |
| AdministratorCredential.Binding.Claim | internal/assembly/module/installation_administrator_bootstrap.go:137-164 | A claim hands the password over and forgets it only after marking the receipt claimed; every fault withholds it. |
| AdministratorCredential.Binding.Discard | internal/assembly/module/workspace_bootstrap.go:298-307 | Discarding forgets the password held for a receipt and touches nothing else. |
| AdministratorCredential.EveryRunIsSafe | internal/assembly/module/installation_administrator_bootstrap.go:41-164 | In every run of bootstraps, commits, rollbacks, completions, claims, time-outs and restarts, a receipt's password is handed over at most once, no password twice, it is the committed receipt's own, and it was never thrown away. |
| AdministratorCredential.RolledBackStaysHidden | internal/assembly/module/installation_administrator_bootstrap.go:108-111 | The password held when a rollback is reported is never handed over by any later step. |
| AdministratorCredential.ClaimNeedsCommit | internal/assembly/module/installation_administrator_bootstrap.go:137-164 | A claim succeeds only on a committed, unclaimed receipt, and hands over the password that receipt was made with. |
| AdministratorCredential.ClaimHandsOverIff | internal/assembly/module/installation_administrator_bootstrap.go:137-164 | A claim hands the password over if and only if credential and receipt are of the claiming workspace, the commit was reported, nobody claimed before and nothing fails; otherwise memory keeps what it holds. |
| AdministratorCredential.OtherWorkspaceWithheld | internal/assembly/module/installation_administrator_bootstrap.go:145-147 | In every run a claim by another workspace than the receipt's is withheld and changes nothing. |
| AdministratorCredential.CommitConfirmsIff | internal/assembly/module/installation_administrator_bootstrap.go:100-135 | A reported commit makes the password claimable if and only if a committed receipt of this workspace with this login backs it. |
| AdministratorCredential.BootstrapIssuesIff | internal/assembly/module/installation_administrator_bootstrap.go:28-98 | A new password is drawn if and only if the request is complete, its receipt new, nobody administrator yet, and nothing fails. |
| AdministratorCredential.HappyPathHandsOver | internal/assembly/module/installation_administrator_bootstrap.go:28-164 | Bootstrap, commit, report and claim, after anything, do hand the new password over. |
| MetadataRuntime.Runtime.EffectiveRoleDefinitions | internal/assembly/metadata_runtime.go:96-119 | The effective roles are the overlaid table listed by key, whatever order the map is ranged over. |
| MetadataRuntime.Identity.ReplaceRoleDefinitions | internal/domain/identity/service/identity_domain_service.go:150-160 | The table becomes the list's roles under their keys. |
| MetadataRuntime.SortedListing | internal/assembly/metadata_runtime.go:112-119 | Sorting any listing of a table by key gives the same list. |
| MetadataRuntime.Metadata.PrepareReloadObservers | internal/application/metadata/metadata_application_service.go:62-77 | Observers prepare in turn; one refusal yields no commit at all. |
| MetadataRuntime.Metadata.ReloadMetadata | internal/application/metadata/metadata_schema_application_service.go:48-83 | A reload loads, prepares, activates and commits; when loading or any observer fails, nothing anywhere has changed and the old snapshot is returned. |
| MetadataRuntime.Metadata.PublishProjectRoles | internal/assembly/module/project_roles.go:16-65 | Publication of valid, distinct definitions replaces the project roles and the identity table together, or changes nothing. |
| MetadataRuntime.PublishedAreFound | internal/assembly/module/project_roles.go:16-65 | A publication succeeds if and only if its definitions are acceptable and can be stored; then each is what its key finds, and every other key finds what the snapshot has. |
| MetadataRuntime.Performed | internal/application/metadata/metadata_schema_application_service.go:77-82 | The commits refresh the identity table if and only if its observer is registered, publish what each dependent prepared, and nothing else. |
| MetadataRuntime.PublishedByDependents | internal/application/metadata/metadata_schema_application_service.go:77-82 | Each dependent that listens has what it made of the candidate published, if it made something, and all others keep what they had. |
| MetadataRuntime.ReloadBringsAgreement | internal/assembly/core.go:208-218 | After a reload that succeeds, identity agrees with the activated snapshot, whatever was there before. |
| MetadataRuntime.EveryRunAgrees | internal/application/metadata/metadata_schema_application_service.go:58-82 | From the first successful reload on, after any reloads, failing ones included, publications and new observers, identity's roles are the active snapshot's overlaid by the project's. |
| MetadataRuntime.ProjectWins | internal/assembly/metadata_runtime.go:93-111 | In that table a key finds the project's definition if it has one, else the snapshot's; no other key is found. |
| MetadataRuntime.ReloadSucceedsIff | internal/application/metadata/metadata_schema_application_service.go:64-77 | A reload succeeds if and only if the manifest was loaded and no observer refuses it. |
| CandidateMutations.Candidate.Apply | internal/application/metadata/metadata_candidate_validation_application_service.go:108-150 | One mutation in place, with every branch and error; one that fails changes nothing. |
| CandidateMutations.Candidate.ApplyFieldMutation | internal/application/metadata/metadata_candidate_validation_application_service.go:152-168 | A field is replaced or removed in the object it addresses, or the error says why not. |
| CandidateMutations.Candidate.ApplyValidationMutation | internal/application/metadata/metadata_candidate_validation_application_service.go:170-194 | The same for validations, with the object named by the request or by the payload. |
| CandidateMutations.Candidate.ApplyMutations | internal/application/metadata/metadata_candidate_validation_application_service.go:38-42 | Mutations apply in turn up to the first that fails, whose error is given. |
| CandidateMutations.ApplySlice | internal/application/metadata/metadata_definition_validation_application_service.go:27-38 | Actions, roles and profile extensions are replaced or removed by key. |
| CandidateMutations.RefinesMap | internal/application/metadata/metadata_candidate_validation_application_service.go:108-207 | At every address the manifest afterwards holds what updating a finite map would give: the written or removed resource, an object's members gone with it or brought by a new one, and everything else as it was. |
| CandidateMutations.AppliedShows | internal/application/metadata/metadata_candidate_validation_application_service.go:108-207 | What is found at the address afterwards: nothing after an archive or delete, the payload after a create or update. |
| CandidateMutations.ErrorsTell | internal/application/metadata/metadata_candidate_validation_application_service.go:108-194 | What each error says about the mutation and the manifest. |
| CandidateMutations.RunRefinesMap | internal/application/metadata/metadata_candidate_validation_application_service.go:28-42 | The same for any list of mutations of which none, where it is applied, brings a new object that repeats a key. |
| CandidateMutations.KeysStayUniqueIff | internal/application/metadata/metadata_candidate_validation_application_service.go:108-207 | Keys stay unique if and only if the mutation does not bring a new object that repeats a key among its own members. |
| CandidateMutations.RepeatedFieldArrives | internal/application/metadata/metadata_candidate_validation_application_service.go:124-136 | The smallest failing case: creating an object with two fields of one key. |
| CandidateMutations.RunKeepsUniqueIff | internal/application/metadata/metadata_candidate_validation_application_service.go:28-42 | A list of mutations keeps keys unique all along if and only if none, where it is applied, brings a new object that repeats a key among its own members. |
| CandidateMutations.OthersUntouched | internal/application/metadata/metadata_candidate_validation_application_service.go:108-207 | Without the addressed resource the manifest is the same before and after: all else keeps its value and its place. |
| CandidateMutations.UpdateKeepsMembers | internal/application/metadata/metadata_candidate_validation_application_service.go:124-136 | Writing a known object keeps its fields and validations, whatever the payload says. |
| CandidateMutations.AppliesIff | internal/application/metadata/metadata_candidate_validation_application_service.go:152-194 | Whether a mutation can be applied depends on the manifest only through the existence of the object that a field or validation belongs to. |
| CandidateMutations.UnrelatedCommute | internal/application/metadata/metadata_candidate_validation_application_service.go:108-207 | Two mutations of unrelated resources can be applied in either order, and the manifests hold the same resources. |
| KeyedLists.ReplaceByKey | internal/application/metadata/metadata_definition_validation_application_service.go:52-69 | The loop puts the new value at the first place of the key, drops its other places, and appends when there is none. |
| KeyedLists.RemoveByKey | internal/application/metadata/metadata_definition_validation_application_service.go:71-79 | The loop drops every place of the key. |
| KeyedLists.IndexOfKey | internal/application/metadata/metadata_definition_validation_application_service.go:18-25 | The first position of a key, or minus one. |
| KeyedLists.ReplaceFinds | internal/application/metadata/metadata_definition_validation_application_service.go:52-69 | After replacing, the key finds the new value and every other key what it found before. |
| KeyedLists.RemoveFinds | internal/application/metadata/metadata_definition_validation_application_service.go:71-79 | After removing, the key finds nothing and every other key what it found before. |
| KeyedLists.ReplaceKeepsOthers | internal/application/metadata/metadata_definition_validation_application_service.go:52-69 | Replacing keeps all other elements and their order. |
| Lookup.IndexIgnoresOrder | internal/application/identity/manifest_identity_seed.go:143-146 | A map filled from a list with distinct keys does not depend on the order of the list. |
| ParentGraph.ChainUnique | internal/application/identity/manifest_identity_seed.go:183-213 | A list that starts at a node without a parent and steps from parent to child is the chain of its last node. |

## Left out

- Authoring.ReplayAgrees: what a float64 makes of a number and how deep the decoder goes are parameters of which nothing is assumed; a number is its decimal value, not its text.
- Authoring.MemoryRepository.Claim: does not model 64-bit wrap-around of the fencing token, which would need that many take-overs.
- Authoring.Service.ExecuteManaged: one call alone on the repository; interleavings are the step system beside it. Retention of receipts, command contracts and the trusted context are not modelled, and `ExecuteCommand` is the same execution around another callback.
- Authoring.UpsertHashIsATicket: a change of the resource between the read and the owner's write is the owner's to detect and is not modelled.
- LocaleMutation.AuthService.UpdateCurrentUserLocaleIdempotent: one key of one user; retention of receipts (internal/application/auth/auth_mutation_application_service.go:145-162) is not modelled; removed users are not created again, and how the stored profile is re-read as JSON is opaque.
- PolicyCompilation.CompileKeepsMeaning: case folding is ASCII; well-formedness is the rules of metadata validation for what compilation looks at, without literals that read as placeholders, whose case is `PolicyCompilation.LiteralKeptExactly`. Denying data policies, priorities and actions of field rules, references, exports, guardrails and reasons of the bundle are not modelled.
- SchemaValidation.Validate: a diagnostic is its rule and path; messages and parameters are left out, and numbers, canonical text and string formats are opaque predicates.
- ReportingPaths.FillReportingPaths: a path is the list of its ids; ids that contain the separator are not told apart from nested paths.
- OrganizationUnits.OrganizationUnits: as a method that ends it is stated for seeds without a cycle, which are exactly those it ends on (`OrganizationUnits.SeedEndsIff`).
- MenuGovernance.Governance.UpsertMenu: labels, routes and statuses are left out, and the SQL store's silent refusal to write over a deleted menu is not modelled. Case folding of keys is a parameter.
- MenuRetirement.RetireRemovedMenus: stated for menus of which no retired one lies on a cycle, which are exactly those it ends on (`MenuRetirement.RetirementEndsIff`); the removal of role assignments that goes with each menu is not modelled.
- StoreDelivery.Service.Deliver: validation of names and configuration is an opaque predicate, descendants' paths are not rewritten, a cyclic hierarchy is refused where the domain service might not return, and access tokens and authorization revisions are checked before the model begins.
- StoreCursor.RoundTrip: of foreign cursors the model reads only the layout that encoding writes; other JSON layouts, surrogate escapes and ill-formed UTF-8, which the decoder accepts or repairs, count as invalid.
- Paging.List: the encrypted usage cursor is an opaque inverse; grants and audit entries are left out, and the store list's rows are taken as already filtered by scope.
- UsageCounts.ApplyGroups: counters are unbounded integers; the compound key of a group is a triple, which differs only for ids that contain a NUL.
- AdministratorCredential.Binding.Bootstrap: one process holds the password, inserting a receipt waits for or fails against another open transaction with the same receipt, and a failed bootstrap is rolled back by its host. Acknowledged delivery is not modelled.
- MetadataRuntime.Metadata.ReloadMetadata: sorting of roles with equal keys is taken as stable; objects, actions and profile extensions ride along unexamined; real concurrency of reload and publication is not modelled.
- MetadataRuntime.Metadata.PublishProjectRoles: the role rows written to the store before a failure are not modelled, nor is the bootstrap catalog that bypasses the overlay.
- CandidateMutations.Candidate.Apply: a payload is what it decodes to as each type; a list shared with the loaded manifest is copied, so aliasing through it is not seen.
- HTTP, routing, configuration, assembly wiring and audit logging: plumbing without a hard property.
- SQL statements and real threads: only their atomic effect is modelled.
- The permission catalog, handler delivery, organization-unit delivery and the password change: the same receipt patterns over hidden or similar collaborators, which would add easy members.
