# Verified model of kube-aws-iam-controller

The process runs two reconciliation loops against one Kubernetes cluster. The AWSIAMRole controller
keeps one secret with AWS credentials per `AWSIAMRole` resource; the secrets controller keeps one
per (role, namespace) pair of an in-memory role store. Both ask STS for credentials under a session
name that has to fit 64 bytes. This project models both loops, the store, the session name and the
API server they share, and proves what they keep and where they lead.

## How it is built

- **`Text`, `SessionName`**: `credentials_getter.go` as functions on byte strings (one `char` a
  byte). A violated slice bound is the outcome `Panicked`.
- **`RoleStore`**: `role_store.go` as objects, with the three levels of maps changed in place.
- **`Kube`, `Payload`, `Decimal`**: the objects, the API server and the secret data. Every object has
  a `resourceVersion` from one global counter. An Update with a stale version or of a missing object
  is rejected, a Create of an existing one is rejected, and Delete is by name only. A request is
  answered, or fails before it has any effect, or is served and its answer lost.
- **`Client`, `RoleController`, `StoreController`**: the controllers in their own form, objects whose
  `Refresh` runs the loops of the source over maps, lists and API calls. Each pass has its own clock
  readings, STS answers and failures, and before every request a script may change the cluster (and,
  for the secrets controller, the role store) arbitrarily within the API server's own rules.
- **`RoleMachine`, `StoreMachine`, `Events`**: the same passes one request at a time. Every pass of a
  controller object is proved to be a run of its machine, whatever the script does; facts about logs
  (`RoleTrace`, `StoreTrace`) and about interleavings rest on this.
- **`RolePass`, `StorePass`**: the same passes as values. Every pass of a controller object that
  nobody disturbs is proved to have the effect these functions give. `RoleReconcile` and
  `Convergence`, and `StoreExact`, say what that effect is.
- **`World`, `Separation`, `Generations`, `StoreCache`, `Freshness`**: both machines, users who edit
  roles and other secrets, time, and crashes, interleaved at the granularity of API calls, and the
  invariants of every reachable state.

## What the code does that its own words do not say

- The comment on `normalizePath` promises that the last level gets all but one byte per other level.
  That is so for non-empty levels and a budget of at least two bytes per level (`GreedyIsOptimal`). An
  empty level still reserves its byte (`EmptyLevelsWasteBudget`; `ExactLengthIff` says exactly when that
  costs anything), and a budget below 2n-1 is a panic (`SafeIffBudget`): with a 12-digit account id, a
  name of more than 26 levels ends the process (`TwentySixLevels`).
- Two roles can share a session name (`TruncationCollides`). `DeterminedIff` says exactly when a session
  name determines its levels, dots and colons aside.
- One pass does not always converge. Loop 3 works from the list read at the start, in which the
  orphans that loop 2 deleted are still present, so a role whose name an orphan holds gets its secret
  a pass later. `OnePassConvergesIff` and `TwoPassConvergesIff` give the exact conditions; a secret
  whose generation record cannot be read stays as it is until it is due for renewal.
- A store pass leaves exactly the wanted secrets if and only if no wanted one goes by an unprefixed
  name and no wanted name is taken (`OnePassExactIff`): `TrimPrefix` lets a secret named `x` stand for
  role `x`.

## Model

| member | source | states |
|---|---|---|
| SessionName.SafeIffBudget | credentials_getter.go:130-144 | for at least one level, no slice bound is violated anywhere in the recursion if and only if the budget is at least 2n-1 |
| SessionName.ExactLength | credentials_getter.go:130-144 | the path exceeds neither the budget nor the full length; for non-empty levels its length is exactly the smaller of the two, and if everything fits it is the dot-joined levels with colons replaced |
| SessionName.LengthFormula | credentials_getter.go:130-144 | for all levels, empty ones included, the length is the least of the full length and, over each level i, the budget less 2i plus the length of the levels before i |
| SessionName.ExactLengthIff | credentials_getter.go:130-144 | the length is the smaller of budget and full length if and only if, at every level, it and those after it fit whole beside two bytes for each level before, or those before it have a byte each on average |
| SessionName.NothingCutIff | credentials_getter.go:130-144 | the path is the dot-joined levels with colons replaced if and only if, at every level, it and those after it fit whole beside two bytes for each level before |
| SessionName.GreedyIsOptimal | credentials_getter.go:125-144 | for non-empty levels and a budget of at least 2n, the kept lengths are feasible and no feasible vector is greater, read from the last level backwards |
| SessionName.BestIsUnique | credentials_getter.go:125-129 | two length vectors neither of which is better are equal, so the optimum above is one vector |
| SessionName.PathPieces | credentials_getter.go:130-144 | for all levels the path is a dot before each of one piece per level, each a prefix of its level with colons replaced, non-empty from a budget of 2n, and all of them whole exactly under the condition of NothingCutIff |
| SessionName.RoleARNParts | credentials_getter.go:110-118 | an ARN built from prefix, account id and name is taken apart into that account id and the levels of that name |
| SessionName.NormalizedName | credentials_getter.go:109-123 | on such an ARN the session name depends on the account id and the levels only |
| SessionName.SessionNameBound | credentials_getter.go:109-123 | exactly when the session name is an error, a panic or a name; a name has at most 64 bytes, and its exact length for non-empty levels |
| SessionName.TwentySixLevels | credentials_getter.go:109-123 | with a 12-digit account id a name comes out exactly for 1 to 26 levels |
| SessionName.PathAlphabet | credentials_getter.go:130-144 | levels over the permitted characters and the colon give a path over the permitted characters |
| SessionName.SessionNameAlphabet | credentials_getter.go:106-123 | such levels and a permitted account id give a session name in the RoleSessionName alphabet of the AWS STS API Reference |
| SessionName.SessionNameRoundTrip | credentials_getter.go:109-144 | for a dot-free account id and dot-free levels, splitting the session name on dots gives the account id and one prefix per level (colons replaced) back, whole exactly when nothing is cut |
| SessionName.SessionNameInjective | credentials_getter.go:109-144 | untruncated session names are injective in account id and levels, empty levels included |
| SessionName.CutCollides | credentials_getter.go:138-143 | wherever some level fills its budget or is cut, levels of the same number, some of them a byte longer, give the same path |
| SessionName.DeterminedIff | credentials_getter.go:109-144 | a session name of dot- and colon-free parts is that of no other such account id and levels if and only if, at every level, it and those after it fit with a byte to spare |
| SessionName.TruncationCollides | credentials_getter.go:140-143 | with a 12-digit account id, any two role names that differ only beyond the 51st byte share their session name |
| SessionName.EmptyLevelsWasteBudget | credentials_getter.go:137-143 | with a 12-digit account id and an empty first level, every 50-byte role name would fit the 64 bytes exactly and yet loses its last byte |
| SessionName.PrefixOfBase | credentials_getter.go:149-155 | the prefix derived from a base ARN is the one the base ARN starts with |
| SessionName.PrefixIff | credentials_getter.go:146-155 | an ARN has a prefix if and only if it has six sections or more of which the first is "arn", and the prefix is arn, the second section and iam without a region |
| SessionName.ResolveIdempotent | credentials_getter.go:57-61 | resolving a resolved role changes nothing |
| SessionName.RequestIs | credentials_getter.go:55-72 | for any base ARN, prefix and role: an error exactly when the resolved ARN has no slash, a panic exactly when its account id and 2n-1 bytes exceed 64, else that ARN as the role ARN and account id and normalised path as the session name |
| SessionName.NameAndArnAgree | credentials_getter.go:57-72 | a role given by name and by full ARN sends STS the same: the full ARN as the role ARN, and under it the account id followed by the normalised path of the name's levels; never refused as malformed, and a panic exactly when the account id and 2n-1 bytes exceed 64 |
| RoleStores.RoleStore.constructor | role_store.go:14-19 | a new store is valid and empty |
| RoleStores.RoleStore.Exists | role_store.go:21-32 | true exactly when the store has the namespace under the role |
| RoleStores.RoleStore.Add | role_store.go:34-54 | the in-place change leaves a valid store whose whole contents are those of inserting one entry |
| RoleStores.RoleStore.Remove | role_store.go:56-77 | the same for removing one entry, with emptied inner maps gone |
| RoleStores.RoleStore.NothingShared | role_store.go:34-54 | in a valid store no inner map is reachable by two paths |
| RoleStores.AddedIsInsertion | role_store.go:34-54 | on the set of (role, namespace, pod) entries Add is insertion of one, and no inner map becomes empty |
| RoleStores.RemovedIsRemoval | role_store.go:56-77 | Remove is removal of one, and no inner map is left empty |
| RoleStores.ExistsIffSomePod | role_store.go:21-32 | what Exists reads means that some pod has an entry there |
| RoleStores.PresentIffLastAdded | role_store.go:34-77 | after any sequence of operations an entry is present exactly when its last operation was Add |
| RoleStores.ExistsIffSomePodAdded | role_store.go:21-77 | after any sequence of operations Exists holds exactly when some pod's last operation there was Add |
| RoleStores.Perform | role_store.go:34-77 | any sequence of operations on a real store leaves it valid and holding the replayed contents |
| Decimal.Wrap64 | awsiamrole_controller.go:149 | int64 wrap-around: in range, congruent modulo 2^64, and the identity on values in range |
| Decimal.FormatParse | awsiamrole_controller.go:432-443 | printing an int64 in decimal and parsing it gives it back |
| Decimal.ParsesIff | awsiamrole_controller.go:436-439 | a text parses to n if and only if n is an int64 and the text is an optional sign, zeros and the digits of n |
| Kube.MapKeyInjective | awsiamrole_controller.go:128-136 | the maps' string keys tell any two objects apart, as namespaces hold no slash |
| Kube.MapKeyNeedsSlashFreeNamespaces | awsiamrole_controller.go:128-136 | a witness that they would not otherwise |
| Kube.RequestLaws | awsiamrole_controller.go:185-227 | what Update, Create, Delete and a status update do to any cluster: exactly when they succeed, what is stored under which version, that a failed one changes nothing and none touches anything else |
| Payload.Truncated | awsiamrole_controller.go:155-163 | RFC 3339 formatting and parsing lose less than a second, never gain, and leave whole seconds |
| Payload.RecordedGeneration | awsiamrole_controller.go:432-443 | the recorded generation is n if and only if there is no record and n is 0, or the record is a text of the int64 n |
| Payload.PayloadReadsBack | awsiamrole_controller.go:62-88 | field by field: the file holds the key id, the key, the token and the truncated expiry of the STS answer, the JSON version 1 and the same with the whole expiry, and a role's data the ARN and the generation; there are no other keys |
| Payload.ExpireNeverLater | awsiamrole_controller.go:152-166 | the stored expiry is at most the real one and less than a second earlier, so the refresh test never fires late |
| Payload.RefreshIff | awsiamrole_controller.go:152-166 | refresh exactly when the expiry is missing, is unreadable, or is less than the limit away |
| Payload.RefreshWindow | secrets_controller.go:199-213 | for credentials from STS the test is never late, and never a second or more early |
| Payload.SessionLasts | awsiamrole_controller.go:147-150 | one hour where the resource asks for none, else the seconds it asks for while they fit an int64 of nanoseconds |
| Payload.SchemaDurationsSuffice | docs/aws_iam_role_crd.yaml:44-51 | under the resource schema the duration product never wraps and no session is shorter than 15 minutes |
| Clients.Client.ListSecrets | awsiamrole_controller.go:118-121 | exactly the secrets in scope that have every selected label, each once, as of the state the request meets, or an error |
| Clients.Client.ListRoles | awsiamrole_controller.go:123-126 | exactly the roles in scope, each once, as of the state the request meets, or an error |
| Clients.Client.UpdateSecret | awsiamrole_controller.go:185-189 | in whatever cluster the request meets, the stored secret is replaced only at the version read, and the answer says so unless it is lost |
| Clients.Client.CreateSecret | awsiamrole_controller.go:365-373 | in whatever cluster the request meets, a secret is added only under a free name |
| Clients.Client.DeleteSecret | awsiamrole_controller.go:223-227 | in whatever cluster the request meets, whatever secret has the name is removed |
| Clients.Client.UpdateStatus | awsiamrole_controller.go:213-217 | in whatever cluster the request meets, the status alone is replaced, and only at the version read |
| RolePass.FindSecretIff | awsiamrole_controller.go:128-131 | the map lookup finds the listed secret of that name, and none only if none is listed |
| RolePass.FindRoleIff | awsiamrole_controller.go:133-136 | the same for roles |
| RolePass.RenewalsMembers | awsiamrole_controller.go:139-150 | loop 1 works on exactly the listed secrets owned by the listed role of their name, each once |
| RolePass.OrphansMembers | awsiamrole_controller.go:138-144 | loop 2 works on exactly the other ones, each once |
| RolePass.SettlementsMembers | awsiamrole_controller.go:239-333 | loop 3 makes requests for exactly the listed roles with work to do in the snapshot, each once |
| RolePass.TaskFrame | awsiamrole_controller.go:139-401 | an iteration of any loop leaves every other namespace/name key as it was |
| RolePass.OwnedIff | awsiamrole_controller.go:408-418 | owned exactly when some reference has the role's API version, kind, name and UID, as the reference of a new secret has |
| RoleReconcile.PassRefinesReconcile | awsiamrole_controller.go:128-401 | up to version numbers, the three-loop pass leaves at every key what a function of that key's snapshot and answers says, for every listing order and whatever fails elsewhere |
| Convergence.PassIsLocal | awsiamrole_controller.go:128-401 | two passes over different clusters with different failures agree at a key where the objects and answers agree |
| Convergence.OnePass | awsiamrole_controller.go:113-404 | what one fault-free pass does to a key: an orphan holding a role's name goes, an unreadable record stays, everything else converges |
| Convergence.OnePassConvergesIff | awsiamrole_controller.go:113-404 | one fault-free pass converges a key if and only if its name is not taken by an orphan or by someone else and its record is readable or due |
| Convergence.OrphanTakesTwoPasses | awsiamrole_controller.go:246-333 | a cluster in which no fault-free pass converges a role whose name an orphan holds, and any two do |
| Convergence.TwoPassConvergesIff | awsiamrole_controller.go:113-404 | two fault-free passes converge a key if and only if nobody else's secret has the name and the record is readable or due at one of them |
| Convergence.TwoPassConvergence | awsiamrole_controller.go:113-404 | after two fault-free passes the managed secrets are exactly one per role, owned by its UID, at its generation, with the generation observed |
| Convergence.ConvergedIsQuiet | awsiamrole_controller.go:113-404 | once a pass has read the lists of a converged cluster whose stored expiries are all at least the limit away, all it does is read the clock, at most once per secret: it asks STS for nothing and sends no write, whatever happens meanwhile |
| Convergence.RealOutlasting | awsiamrole_controller.go:152-166 | credentials of STS answers that last the limit and a second more meet that assumption |
| Convergence.ConvergedStays | awsiamrole_controller.go:94-108 | undisturbed, such a pass leaves the cluster as it is |
| Convergence.ChangedStatusTells | awsiamrole_controller.go:205-331 | a status that a fault-free pass changes has the role's generation and tells the ARN and, to the second, the expiry that the role's secret now holds, or that the orphan the pass removed held; if the pass has written the secret, the ARN is the resolution of the role's reference |
| Convergence.WrittenIsTold | awsiamrole_controller.go:168-400 | when a fault-free pass has written a role's secret, the status tells what is in it, unless the secret was not due and the status already had the generation: then the status is as it was |
| RoleControllers.MergeLabels | awsiamrole_controller.go:420-430 | the loops compute the map union in which the second map wins |
| RoleControllers.IsOwnedReference | awsiamrole_controller.go:408-418 | true exactly when some reference of the dependent has the API version, kind, name and UID of the owner |
| RoleControllers.MapSecrets | awsiamrole_controller.go:128-131 | the built map answers every namespace/name as a search of the list does |
| RoleControllers.MapRoles | awsiamrole_controller.go:133-136 | the same for roles |
| RoleControllers.FindOwner | awsiamrole_controller.go:140-144 | the listed role of the secret's name, if and only if some reference of the secret has its four fields |
| RoleControllers.RoleController.GetCreds | awsiamrole_controller.go:56-90 | one question to STS, for the role's reference and duration, and of its answer the credentials field by field and the resolved ARN, or the error |
| RoleControllers.RoleController.CheckExpiry | awsiamrole_controller.go:152-166 | refresh exactly for a missing or unreadable expiry or one less than the limit from the clock, which is read exactly for a readable one |
| RoleControllers.RoleController.ReadGeneration | awsiamrole_controller.go:432-443 | 0 without a record, n exactly for a text of the int64 n, and none for any other record |
| RoleControllers.RoleController.RenewSecret | awsiamrole_controller.go:146-218 | loop 1's body, under any interference a run of the machine; undisturbed, the specified effect |
| RoleControllers.RoleController.DropSecret | awsiamrole_controller.go:223-235 | loop 2's body, likewise |
| RoleControllers.RoleController.UpdateRole | awsiamrole_controller.go:246-333 | loop 3's body for a role with a secret in the snapshot, likewise |
| RoleControllers.RoleController.ReportStatus | awsiamrole_controller.go:303-331 | exactly when the observed generation is another and the expiry readable, one report goes out, with the role's generation and the ARN and expiry in the data; else nothing |
| RoleControllers.RoleController.CreateForRole | awsiamrole_controller.go:335-400 | loop 3's body for a role without one, likewise |
| RoleControllers.RoleController.RenewAll | awsiamrole_controller.go:138-219 | loop 1 collects exactly the orphans and keeps the pass on course |
| RoleControllers.RoleController.DropAll | awsiamrole_controller.go:221-236 | loop 2 works off the orphans and keeps the pass on course |
| RoleControllers.RoleController.SettleAll | awsiamrole_controller.go:238-401 | loop 3 finishes the plan made from the snapshot |
| RoleControllers.RoleController.Refresh | awsiamrole_controller.go:113-404 | under any interference the log stays a run of the machine between passes; undisturbed, the cluster becomes what the plan for the two lists makes of it |
| RoleControllers.RoleController.Run | awsiamrole_controller.go:94-108 | any number of passes, each with its own clock, answers and failures, is a run of the machine; undisturbed, each leads from its cluster to the next as a pass does |
| RoleTrace.AgendaIsPlanned | awsiamrole_controller.go:128-401 | in any log, what is left to do is a suffix of the plan for the two lists last read |
| RoleTrace.DeletionsAreOrphans | awsiamrole_controller.go:138-226 | under any failures and interference only listed secrets are deleted that hold no reference with the four fields of a listed role of the name |
| RoleTrace.WritesFromOneAnswer | awsiamrole_controller.go:168-189 | every secret written goes under its role's name with the merged labels, its data made field by field of the one STS answer received immediately before; a new one has exactly one owner, with the role's four fields, a rewritten one is a listed secret with other labels and data |
| RoleTrace.AsksForAReason | awsiamrole_controller.go:146-168 | STS is asked only for a listed role, for its reference and duration, whose secret it owns and is due by the clock reading just before, or records another generation, or is not listed |
| RoleTrace.ClockDecides | awsiamrole_controller.go:152-166 | the clock is read for a listed secret with a readable expiry that its listed role owns, and the next request is the question to STS exactly when the expiry is less than the limit away |
| RoleTrace.ReportsAreTruthful | awsiamrole_controller.go:205-331 | every reported status has its listed role's generation and, after a write, the ARN of the secret just written and the expiry of the STS answer (loop 1, creation) or of that secret (loop 3), else the ARN and expiry of the listed secret |
| RoleTrace.WritesAreReported | awsiamrole_controller.go:191-217 | a successful write is followed by a report of its role, unless loop 3 rewrote a listed secret of another generation and the status already had the role's |
| StoreExact.UnownedMembers | secrets_controller.go:170-174 | the first loop treats exactly the listed secrets without owner references |
| StoreExact.ScanEffect | secrets_controller.go:170-241 | after a fault-free first loop a treated secret exists exactly if its pair is wanted, unchanged or, if due, with the credentials STS answered at its key |
| StoreExact.ScanCache | secrets_controller.go:199-240 | what the first loop caches under a role is what one of the role's kept secrets then holds, and a role without one is not cached |
| StoreExact.FillEffect | secrets_controller.go:243-282 | the second loop adds exactly the prefixed names of wanted pairs not seen, with the role's cached or newly asked credentials, and touches no existing secret |
| StoreExact.PassEffect | secrets_controller.go:166-283 | for any cluster and store, which key holds a secret after a fault-free pass and which credentials it has: its own, those answered at its key, those of a kept secret of the role, or those answered for the role |
| StoreExact.OnePassExactIff | secrets_controller.go:166-283 | the unowned labelled secrets are exactly the wanted ones if and only if no wanted one is unprefixed and no wanted name is taken |
| StoreExact.UnprefixedStays | secrets_controller.go:176-180 | a cluster that no fault-free pass makes exact: a secret under the bare role name stands for the wanted pair |
| StoreTrace.OneWritePerKey | secrets_controller.go:170-281 | under any failures and concurrent changes of the store, a pass sends at most one Delete, Update or Create per key |
| StoreTrace.DeletionsAreUnwanted | secrets_controller.go:182-188 | a deletion is of a listed secret without owners and directly follows the store's answer that the role its name stands for is not wanted in its namespace |
| StoreTrace.UpdatesFromOneAnswer | secrets_controller.go:215-223 | an update is of a listed secret without owners with other data, made field by field of the STS answer received immediately before, for the role its name stands for and an hour |
| StoreTrace.AsksForAReason | secrets_controller.go:199-265 | STS is asked for an hour, and only for the role of a listed secret without owners that is due, or for a role the walk over the store wants and nothing is cached for |
| StoreTrace.ClockDecides | secrets_controller.go:199-213 | the clock is read for a listed secret without owners that has a readable expiry, and the question to STS comes next exactly when the expiry is less than the limit away |
| StoreTrace.CreationsAreWanted | secrets_controller.go:255-281 | a creation is under the prefixed name of a role, in a namespace the walk over the store wants it in, with the one label and no owner |
| StoreControllers.StoreController.GetCreds | secrets_controller.go:81-114 | one question to STS, for the role and an hour, and of its answer the credentials field by field, or the error |
| StoreControllers.StoreController.LookUp | secrets_controller.go:182 | the answer is whether the pair is in the store after whatever the pods did meanwhile |
| StoreControllers.StoreController.CheckExpiry | secrets_controller.go:199-213 | refresh exactly for a missing or unreadable expiry or one less than the limit from the clock, which is read exactly for a readable one; a secret that passes is cached under its role |
| StoreControllers.StoreController.PutData | secrets_controller.go:222-240 | the stale copy with new data goes out, and is cached only when stored |
| StoreControllers.StoreController.ScanSecret | secrets_controller.go:176-240 | the first loop's body: under any interference a run of the machine; undisturbed, on course for the specified result |
| StoreControllers.StoreController.ScanSecrets | secrets_controller.go:166-241 | the first loop over the whole list |
| StoreControllers.StoreController.Walk | secrets_controller.go:245 | a range over the store: every role once, with each of its namespaces once |
| StoreControllers.StoreController.MakeMissing | secrets_controller.go:255-281 | the inner loop creates exactly for the namespaces the index lacks |
| StoreControllers.StoreController.FillIn | secrets_controller.go:244-283 | the second loop, likewise on course |
| StoreControllers.StoreController.Refresh | secrets_controller.go:153-286 | under any interference the log stays a run of the machine with at most one write per key; undisturbed, the cluster becomes what the specification makes of it for some walk over the store |
| StoreControllers.StoreController.Run | secrets_controller.go:138-150 | any number of passes, each with its own clock, answers and failures, is a run of the machine; undisturbed, each leads from its cluster to the next as a pass does |
| Separation.RoleTouches | awsiamrole_controller.go:138-401 | in a sound state every request of a role pass touches at most its own secret of the name it is working on |
| Separation.StoreTouches | secrets_controller.go:170-281 | the same for a store pass |
| Separation.StepKeeps | main.go:101-121 | every step of anyone keeps the invariant, and changes only secrets that are its own |
| Separation.LabelTellsOwner | secrets_controller.go:170-174 | in every reachable state a labelled secret has the type label if and only if it has an owner, and that says who created it |
| Separation.OnlyOwnSecrets | main.go:101-121 | in every interleaving, no request of a controller changes or removes a secret it did not create |
| Generations.StepInOrder | awsiamrole_controller.go:139-401 | every step of anyone keeps the relations between snapshots, roles and recorded generations |
| Generations.GenerationOrder | awsiamrole_controller.go:180-217 | in every reachable state an owned secret's recorded generation lies between the observed and the role's generation |
| Generations.CurrentMeansRightRole | awsiamrole_controller.go:261-275 | in every reachable state, a recorded generation equal to the role's means that the stored ARN is the resolution of its present reference |
| Generations.ObservedNeverDecreases | awsiamrole_controller.go:205-217 | from any start with sound roles, whatever its secrets record: between any two states of a run the observed generation of one UID does not go down |
| Freshness.NoExpiredCredentials | awsiamrole_controller.go:147-166 | from any start: if each session granted is as long as asked for and asked to be at least refreshLimit, no secret checked or written at most refreshLimit ago holds expired credentials in any reachable state, unless its data was there at the start and is not one STS answer's |
| Freshness.EverySecretChecked | awsiamrole_controller.go:335-365 | from any start, in any reachable state every labelled secret has a last check or is as it was at the start, and its data comes from one STS answer or was there then |
| StoreCache.CacheSoundness | secrets_controller.go:199-240 | from any start, in every reachable state a cache entry is the data the API server holds for an unowned secret of the role, and passed the expiry test at a time the clock showed in this pass or is made of an answer STS gave for the role in this pass |
| Freshness.CreatedAsFreshAsChecked | secrets_controller.go:245-266 | from any start, under the same assumption on sessions, data about to go into any new secret passes the expiry test as of the start of the pass or is one STS answer that outlasts the limit from then |
| Freshness.SchemaMakesPunctual | docs/aws_iam_role_crd.yaml:44-51 | with limits of up to 15 minutes the schema's durations meet the assumption, so that STS need only grant what it is asked for |

## Left out

- The health check and the HTTP server. `http.ListenAndServe` blocks (`secrets_controller.go:136`), so the process as it stands never reaches the loop that `StoreControllers.StoreController.Run` models.
- What fills the role store: nothing in the repository calls `Add` on the shared one. A pass is proved for every store and every script of changes to it.
- Kubernetes garbage collection and people who edit or delete labelled secrets by hand: Delete is by name only, so with them a controller can delete a secret it did not create.
- Statuses written by anyone but the controller.
- Writes that change nothing: the API server then keeps the version, the model counts it up.
- Agreement of a status's `expiration` with the secret: it does not heal after a failed report, so it is not claimed.
- The truncation of a status's `expiration` to seconds on the wire.
- The conversion of the session duration to an int32 number of seconds for STS.
- STS itself, the clock, `json.Marshal` and the rendering of the data values: answers are parameters, a marshalling error is one of the failures that a missing answer stands for, and rendered values are kept apart by constructor.
- A panic in the session name ends the process: in `Worlds` it is a `Restart`; the controller objects do not model it.
- The store's locks as such: each operation is one step, and the store stands still during the second loop.
- Several pages of a list: a list is one consistent state.
- Secret types, annotations, finalizers and the other metadata the controllers neither read nor write.
- Lookup of the base ARN in EC2 metadata, the API client's configuration, flags, signals, recorded events and log lines.
- The generated clients, informers and deep copies under `pkg/`.
- StoreControllers.StoreController.Walk: one order per walk, chosen when the read lock is taken; the source's range loops pick theirs as they go, which comes to the same while nothing can change.
