# A verified model of k8s-athenz-istio-auth

The repository runs a set of controllers in a Kubernetes cluster. They read Athenz domains (roles, policies, groups,
trust between domains), compile them into Istio access rules, and drive the API server's objects towards the compiled
result. This project models that logic in Dafny and proves what it is meant to guarantee.

`dafny verify dfyconfig.toml` checks the whole project.

## What is modelled

* **The policy compiler** (`PolicyCompiler`, `PolicyMeaning`, `PolicyCallers`). The loops that turn a domain into an
  AuthorizationPolicy, for one service, at one reading of the clock. An Athenz domain and an Istio policy each get a
  meaning of their own ("does this request pass"), stated without the compiler's helpers; the main theorem is that the
  two agree on every request. Istio's string matcher, the service-name matcher and the clock are parameters.
* **The older back end** (`ServiceRoles`, `ServiceRoleMeaning`, `RoleCollisions`), which emits ServiceRole and
  ServiceRoleBinding pairs, what these admit, their agreement with the policy compiler, and what happens when two roles
  share a resource name.
* **Building the domain model** (`AthenzModel`, `ModelMeaning`, `RoleGlob`). Roles are objects in a shared cache;
  conversion overwrites the members of trust roles in place. The results do not depend on the order or the number of
  conversions; `ModelMeaning` says entry by entry what is in them.
* **The reconciler** (`ChangeList`, `Reconciler`, `Retries`, `Recovery`, `Termination`, `TrustChanges`, `Controllers`). A
  versioned API server, a cache that lags behind it, a queue of domain keys, a queue of items, requeue counters and
  failing API calls make up one step system. `Reconciler` says what every run keeps and that rest means convergence,
  `Retries` what is tried again and how often, `Recovery` that rest is within reach, `Termination` that every undisturbed run gets there, `TrustChanges` what a
  change of a trusted domain does. The controller classes start in its initial states and perform its steps, so the
  theorems about reachable states are about them.
* **The authorization policy controller** (`PolicyStores`, `PolicyController`, `PolicyReconciler`, `PolicyRetries`,
  `PolicyConvergence`, `PolicyTermination`, `ServicePolicies`, `PolicyControllerObject`). Policies of enabled services live on the API
  server, others in a dry-run directory. The controller lists an informer's cache and writes to the server; its
  worker, the server, the informers and the directory are a second step system, in which events and outside writes may
  fall between the items of one sync.
* **The onboarding controller** (`Onboarding`), with its service list edited in place in an array, and its items carried
  out by the API server of the reconciler.
* **The string codecs** (`GoStrings`, `DashCodec`, `DomainNames`, `Regex`, `RoleGlob`, `AssertionResource`,
  `Principals`). `Regex` is a backtracking matcher for the part of RE2 that the repository's expressions use.

Specification functions (`CompiledPolicy`, `ConfigsOf`, `ModelOf`, `Changes`, `HandleAll`, `Decide`, ...) say what a
method computes; the lemmas say what that means. `Sequences` holds facts about sequences.

## Where the code falls short of a plain statement

Each of these is stated exactly, with a lemma that shows the failure or an if-and-only-if condition.

* A domain name survives the trip through its namespace only when no `.` in it is followed by `.` or `-`
  (`DomainRoundTrip`, `NamespaceCollision`). The comments at pkg/athenz/util.go:9-18 do not mention it.
* `_` becomes `--` in resource names, so two roles can share one, such as `a_b` and `a--b` (`SameResourceName`). Two
  such roles with accepted bindings want different bindings under one key, and their domain never comes to rest
  (`RolesCollide`, `ContradictionNeverRests`). The desired objects of a domain can hold at once exactly when configs
  with the same key agree (`SatisfiableIffConsistent`, `KeysDistinctIff`).
* A change in a trusted domain does not queue the domains that trust it. A quiescent one stays converged exactly when
  each role it delegates to that domain is delegated the same accepted subjects as before
  (`TrustChangeKeepsConvergenceIff`); `TrustChangeGoesUnnoticed` is a run after which it does not. Convergence at rest
  is therefore stated for domains without trust roles.
* A deleted domain keeps its resources over every run, by design (`DeletedDomainKeepsItsResources`).
* The resource expression has `svc.` with an unescaped dot, so any character except a newline may follow `svc`; a later
  `:svc` plus one character inside the path becomes the boundary (`ResourceAcceptedIff`, `ResourceRoundTrip`).
* The policy controller's cache may lag. Its items succeed exactly when cache and server agree about them as
  `HandleSucceedsIff` says; with two keys of one service queued, the second sync repeats the addition and is refused
  (`StaleAdditionFails`), and an update whose object is deleted between the listing and the call dereferences nil
  (`DroppedObjectPanics`, `PanicIsReachable`). `ItemsFailOnNewsOnly` says that nothing else makes an item fail when the
  server answers: news of its key is pending, or has arrived since the sync began.
* A domain-level policy sync takes an overridden API entry of a disabled service for its policy and creates no dry-run
  policy beside it; and an entry `ns/` in the list of enabled components makes the namespace look enabled to
  domain-level syncs, which then miss its dry-run policies (`NamespaceEntryHidesDryRunPolicies`). `Overlooked` says for
  which policies this matters: for decodable domains nothing else sets the two kinds of sync apart
  (`DomainSyncEqualsServiceSyncs`). `Missed` says which of them may rest without having converged, and
  `QuiescenceDecidesConvergence` that no others do.
* The service keys of a domain whose name is not decodable are read as keys of another domain
  (`UndecodableDomainSync`, `UndecodableDomainDiverges`, `SharedNamespaceSync`).
* Principals with slashes can share a certificate, with each other and with roles (`SpiffeCollision`,
  `MemberRoleCollision`); `SpiffeNameIsUniqueIff` and `CertificateIsNoRolesIff` say exactly when one does not.
* The v1 back end takes no notice of expiry, disabling and groups (`V1BindsEveryMember`), which the v2 back end
  honours (`V2ListsLiveMembers`).
* Wildcards in an `assume_role` resource do not match a newline
  (`PlainGlobMeaning`).

## Model

| member | source | states |
|---|---|---|
| PolicyMeaning.PolicyPreservesMeaning | pkg/istio/rbac/v2/provider.go:41-269 | For every model, clock, label, matcher and request: the compiled policy admits the request iff some role with a valid name has an ALLOW assertion for the service, method and query-free path, and the caller holds the role certificate or is a direct, group or domain-wildcard member; a member counts, and the group it names too, when it has no expiration before now and no disabled flag other than zero |
| PolicyMeaning.PolicyRulesAreRestrictive | pkg/istio/rbac/v2/provider.go:125-268 | No emitted rule has an empty source list, source, operation list or method list, which Istio would read as no restriction |
| PolicyMeaning.PolicyOnlyNarrowsWithTime | pkg/istio/rbac/common/util.go:305-317 | Recompiling at a later clock never admits a request that the earlier policy refused |
| PolicyMeaning.RuleMeaning | pkg/istio/rbac/v2/provider.go:80-263 | One role's rule exists and admits a request iff that role grants it |
| PolicyMeaning.MembershipMeaning | pkg/istio/rbac/v2/provider.go:150-219 | The expanded live members of a role cover a caller iff a live member does, directly or through a live member of the group it names |
| PolicyMeaning.CallerListsMeaning | pkg/istio/rbac/v2/provider.go:172-217 | The principal, namespace and request-principal lists together name a caller iff some member in the list covers it |
| PolicyCallers.InactiveRoleMemberIsIgnored | pkg/istio/rbac/common/util.go:288-317 | Leaving out a disabled or expired member of a role, or giving it any other name, leaves the compiled policy as it is |
| PolicyCallers.InactiveGroupMemberIsIgnored | pkg/istio/rbac/v2/provider.go:195-217 | The same for a disabled or expired member of a group |
| PolicyCallers.PrincipalsAreActiveMembers | pkg/istio/rbac/v2/provider.go:150-263 | The principals of a role's rule are its role certificate and the certificates of its members that are neither expired nor disabled and name no whole domain, direct or in groups, and no others |
| Principals.CertificateMeaning | pkg/istio/rbac/common/util.go:163-224 | A member has the certificate `<domain>/sa/<service>` exactly when it reads as that domain, a dot and a service without dots, `user.*` the certificate `*`, others none |
| Principals.WildcardMeaning | pkg/istio/rbac/common/util.go:146-161 | A member stands for a namespace exactly when it reads as a non-empty domain followed by `.*`, of neither `user.` nor `unix.`, and the namespace is that of the domain |
| Principals.RoleNameMeaning | pkg/istio/rbac/common/util.go:319-327 | A role has a name exactly when what follows the domain and `:role.`, or the whole of it when it does not begin so, has no colon |
| GoStrings.LettersAreRaised | pkg/istio/rbac/common/util.go:235-246 | Upper-casing raises each letter to the one at its place in the alphabet and leaves other ASCII characters |
| PolicyCompiler.ConvertAthenzModelIntoIstioRbac | pkg/istio/rbac/v2/provider.go:41-269 | Whatever order the rules map is enumerated in, the output is the one policy whose rules follow the sorted role names: a function of the model, clock and label alone |
| PolicyCompiler.CompileRule | pkg/istio/rbac/v2/provider.go:80-263 | The nested loops over assertions, members and groups, with their early continues, compute the specified rule of a role |
| PolicyCompiler.QueryRegexMeaning | pkg/istio/rbac/v2/provider.go:37-37 | The query expression finds a match iff the path has a `?`; the kept path is everything before the first one |
| StringOrder.SortForgetsOrder | pkg/istio/rbac/v2/provider.go:64-77 | Sorting any enumeration of a set of names gives the same ascending list |
| StringOrder.AtMostIsLexicographic | pkg/istio/rbac/v2/provider.go:64-77 | The order of the names is lexicographic: a prefix comes first, otherwise the first difference decides |
| ServiceRoles.ConvertAthenzModelIntoIstioRbac | pkg/istio/rbac/v1/provider.go:30-94 | The loop over the roles with its early continues emits the specified configs in order |
| ServiceRoles.GetServiceRoleSpec | pkg/istio/rbac/common/servicerole.go:26-85 | The access rules are those of the assertions of the role that parse, in order; no spec when there are none |
| ServiceRoles.GetServiceRoleBindingSpec | pkg/istio/rbac/common/servicerolebinding.go:14-78 | The subjects are the members' certificates and token subjects in order, then the role certificate; no spec without one |
| ServiceRoles.OutputIsWellFormed | pkg/istio/rbac/v1/provider.go:62-90 | Every binding directly follows the ServiceRole that its reference names, in the same namespace, and no ServiceRole is empty |
| ServiceRoleMeaning.ServiceRolesPreserveMeaning | pkg/istio/rbac/v1/provider.go:30-94 | When Istio accepts the configs and their keys are distinct, they admit a request iff some role with members on record has an ALLOW assertion for the workload's svc label, method and path and the caller presents the role certificate or is covered by a member, expired or not |
| ServiceRoleMeaning.OnlyRefusedAreWithheld | pkg/istio/rbac/v1/provider.go:55-90 | When Istio refuses some, exactly the refused bindings are withheld, and the refused roles with their bindings |
| ServiceRoles.KeysDistinctIff | pkg/istio/rbac/v1/provider.go:30-94 | The emitted keys are distinct iff no two emitted roles have the same resource name |
| ServiceRoles.TightRoleNamesGiveDistinctKeys | pkg/istio/rbac/common/servicerole.go:21-23 | Different role names in which no `-` is followed by `-` or `_` give distinct keys |
| RoleCollisions.CollidingRolesContradict | pkg/istio/rbac/v1/provider.go:30-94 | Two roles with different names, one resource name and accepted bindings make the desired configs contradict each other, because their role certificates differ |
| RoleCollisions.ContradictionNeverRests | pkg/controller/controller.go:90-128 | In every reachable state a tracked domain whose desired configs contradict each other is not quiescent |
| RoleCollisions.RolesCollide | pkg/istio/rbac/common/servicerole.go:21-23 | A domain with two granted roles of one resource name has contradicting desired configs under an accepting Istio and never comes to rest |
| RoleCollisions.SameResourceName | pkg/istio/rbac/common/servicerole.go:21-23 | `a_b` and `a--b` are two valid role names with one resource name |
| ServiceRoles.BackEndsAgreeOnSubjects | pkg/istio/rbac/common/servicerolebinding.go:14-78 | The v2 principals and request principals are, in order, the users and token subjects of the v1 binding spec for the same live, expanded, non-wildcard members |
| ServiceRoles.PlainMembersStandForThemselves | pkg/istio/rbac/v2/provider.go:150-219 | Live members that name no group and no whole domain are bound by both back ends as they stand |
| ServiceRoles.BackEndsAgreeOnPlainRoles | pkg/istio/rbac/v1/provider.go:30-94 | For a role whose members are live and name no group and no whole domain, the v1 provider itself emits a binding when Istio accepts it, and its users and token subjects are the v2 principals and request principals in order |
| ServiceRoles.V1BindsEveryMember | pkg/istio/rbac/common/servicerolebinding.go:14-78 | The users of a v1 binding are the certificates of all members, expired, disabled and group members included, a domain wildcard under its own name |
| ServiceRoles.V2ListsLiveMembers | pkg/istio/rbac/v2/provider.go:150-263 | The v2 principals are the role certificate and the certificates of exactly the live members, groups expanded and wildcards left out |
| ServiceRoles.BackEndsAgreeOnOperations | pkg/istio/rbac/common/servicerole.go:26-85 | The v2 operations of a role are its v1 access rules for matching services with queries dropped, in order |
| AthenzModel.GetRulesForDomain | pkg/athenz/model.go:60-88 | The nested loops map each mentioned role, and no other, to the subsequence of all assertions that name it |
| AthenzModel.GroupingConservesAssertions | pkg/athenz/model.go:60-88 | The group lengths add up to the number of assertions |
| AthenzModel.NamingIsStable | pkg/athenz/model.go:60-88 | Each group keeps the order of the assertions and holds exactly those naming its role |
| AthenzModel.ProcessTrustDomain | pkg/athenz/model.go:152-204 | The result is the members of the role behind the first assume_role assertion whose pattern matches and whose role is cached, none if that role is itself delegated, an error for an unknown domain |
| AthenzModel.GetMembersForRole | pkg/athenz/model.go:91-114 | Only trust roles are written; the members are those of the untouched cache, and no value of the cache changes |
| AthenzModel.ConvertAthenzPoliciesIntoRbacModel | pkg/athenz/model.go:136-149 | The model is that of the cache as it was, and the conversion leaves every cached value as it was |
| AthenzModel.ConvertInOrder | pkg/athenz/model.go:91-149 | Converting domains in any order and any number of times gives each the model it has in the untouched cache |
| AthenzModel.DelegatesOwnMembersOnly | pkg/athenz/model.go:176-200 | Delegated members are the own members of one undelegated role, behind a matching assume_role assertion: delegation is one level deep |
| ModelMeaning.ModelMembers | pkg/athenz/model.go:91-204 | A role has members in the model iff some role of its name is undelegated or trusts a known domain; the last such role decides: its own members when undelegated, else those of the undelegated role that the first matching assume_role assertion of the trusted domain with an existing role names first, none when that role is delegated or there is no such assertion |
| ModelMeaning.ModelRules | pkg/athenz/model.go:60-88 | The rules of a role are exactly the assertions of the domain's policies that name it, and a role has an entry iff there are any |
| ModelMeaning.AssertionsConcat | pkg/athenz/model.go:60-88 | The assertions are taken policy by policy, in order |
| ModelMeaning.ModelHead | pkg/athenz/model.go:117-149 | The model has the domain's name and namespace, its role names in order, and for each group name the members of the last group of that name |
| AthenzModel.MembersDependOnTrustedDomains | pkg/athenz/model.go:91-114 | A domain's members depend on other domains through the trusted ones only |
| RoleGlob.CompiledGlobMeaning | pkg/athenz/model.go:17-17 | For every pattern the generated expression parses, and it matches a name iff the glob does, with wildcards that leave out the newline |
| RoleGlob.GlobMeaning | pkg/athenz/model.go:17-17 | A glob accepts a name iff the name falls into parts, one for each character of the pattern: any part for a star, one character for a question mark, itself for any other, barred characters in no wildcard's part |
| RoleGlob.PlainGlobMeaning | pkg/athenz/model.go:178-182 | For a given name all patterns agree with the plain glob language iff the name has no newline |
| Regex.ManyTakesLongest | pkg/istio/rbac/common/util.go:49-49 | A greedy star keeps the longest run after which the rest of the expression matches |
| AssertionResource.RegexMeaning | pkg/istio/rbac/common/util.go:49-49 | The greedy search of the resource expression settles on the last mark that a newline-free prefix reaches, and captures the parts around it |
| AssertionResource.ParseAssertionResource | pkg/istio/rbac/common/util.go:255-286 | Whatever order the submatches are visited in, the outcome is the specified one, errors included |
| AssertionResource.ResourceAcceptedIff | pkg/istio/rbac/common/util.go:255-286 | A resource is accepted with given parts iff the longest newline-free prefix before a mark is the domain, the next colon-free segment is the non-empty service, and the rest is the newline-free path |
| AssertionResource.ResourceRoundTrip | pkg/istio/rbac/common/util.go:255-286 | Printing a service and a path and parsing them back gives the same parts iff no further mark begins at the colon of the path or later |
| DomainNames.DomainRoundTrip | pkg/athenz/util.go:11-22 | A domain comes back from its namespace iff no `.` in it is followed by `.` or `-` |
| DomainNames.NamespaceRoundTrip | pkg/athenz/util.go:11-22 | A namespace comes back from its domain with dots as dashes, so unchanged iff it has no dot |
| DomainNames.DomainsAndNamespacesCorrespond | pkg/athenz/util.go:11-22 | The mappings are a bijection between decodable domains and dot-free namespaces |
| DomainNames.NamespaceCollision | pkg/athenz/util.go:11-14 | Two different domains, one of them not decodable, share a namespace |
| DomainNames.RoleNameRoundTrip | pkg/istio/rbac/common/servicerole.go:21-23 | A role name can be read back from its resource name iff no `-` in it is followed by `-` or `_` |
| DashCodec.CollapseWiden | pkg/athenz/util.go:11-22 | Reading pairs from the left undoes the doubling escape on exactly the strings in which no narrow character precedes a narrow or wide one |
| DashCodec.WidenCollapse | pkg/athenz/util.go:11-22 | Doubling undoes reading pairs on exactly the strings without the wide character |
| Principals.SpiffeNameIsUniqueIff | pkg/istio/rbac/common/util.go:213-224 | No other principal has the certificate of a given one iff the only place where the certificate reads `/sa/` with no dot after it is the principal's last dot |
| Principals.SpiffeNamesAreInjective | pkg/istio/rbac/common/util.go:213-224 | A principal without slashes shares its certificate with no other principal, whatever that one looks like |
| Principals.CertificateIsNoRolesIff | pkg/istio/rbac/common/util.go:165-224 | A member's certificate is no role certificate, of any domain and role, iff it nowhere reads `/ra/` between other characters |
| Principals.ServiceAndRoleCertificatesDiffer | pkg/istio/rbac/common/util.go:165-224 | No certificate of a member without slashes is a role certificate, of any domain and role |
| Principals.MemberRoleCollision | pkg/istio/rbac/common/util.go:165-224 | With slashes a member can have the certificate of a role: `a/ra/x.y` that of `x/sa/y` in `a` |
| Principals.SpiffeCollision | pkg/istio/rbac/common/util.go:213-224 | With slashes two principals can share a certificate |
| ChangeList.ConvertSliceToKeyedMap | pkg/istio/rbac/common/util.go:345-352 | Of several configs with one key the last wins |
| ChangeList.ComputeChangeList | pkg/istio/rbac/common/util.go:362-421 | The two loops compute the specified adds, updates under the existing metadata, and deletes; flagged configs are left alone |
| ChangeList.ChangeListReconciles | pkg/istio/rbac/common/util.go:362-421 | Executing a change list in any order, even with repetitions, gives every desired key its spec under its old metadata, removes the undesired keys in scope, and leaves flagged, equal and foreign objects as they were |
| ChangeList.RecomputedChangesAreEmpty | pkg/istio/rbac/common/util.go:362-421 | After that the next change list is empty |
| ChangeList.NoChangesIff | pkg/istio/rbac/common/util.go:362-421 | A change list is empty iff every desired config is there or stands against a flagged one, and nothing unflagged is undesired |
| ChangeList.SatisfiableIffConsistent | pkg/istio/rbac/common/util.go:362-421 | Some current configs leave nothing to do iff desired configs with the same key have the same spec |
| Reconciler.StepKeepsInv | pkg/controller/controller.go:56-268 | Every step (sync, item with any API answer or lost call, event, outside write, domain change, resync) keeps: open work for a trust-free decodable domain is queued, announced, given up, or a pending item that the cache calls for |
| Reconciler.QuiescenceImpliesConvergence | pkg/controller/controller.go:56-128 | In every reachable state, when nothing is pending for an existing trust-free decodable domain and no retry limit was hit since its last sync, the server holds exactly the desired specs of its namespace, although stale items may have run |
| Reconciler.FreshItemSucceeds | pkg/istio/processor/controller.go:95-112 | While no event is pending in the namespace, an item that the cache calls for is accepted by the server |
| Reconciler.RetriesAreBounded | pkg/controller/controller.go:56-268 | In every reachable state no requeue counter of a key or an item exceeds three |
| Retries.LostCallIsRetried | pkg/istio/processor/controller.go:73-92 | An item whose call is lost stays the same waiting item with one more retry while it has had fewer than three, else it is dropped and its owner given up; nothing else is queued, counted or given up |
| Retries.LostItemIsSyncedFourTimes | pkg/istio/processor/controller.go:54-92 | In every run in which each call of an item is lost: it waits, unchanged but for its counter, until it has been synced four times, and is gone from then on |
| Retries.AnsweredCallIsDone | pkg/controller/controller.go:56-83 | An item whose call is answered is dropped; a conflict queues its owner again with one more retry while that has had fewer than three, else gives it up; no other answer queues anything |
| Retries.UnknownKeyIsRetried | pkg/controller/controller.go:242-268 | The key of an unknown domain goes back to the queue with one more retry while it has had fewer than three, else it is given up |
| Retries.KnownKeyIsDone | pkg/controller/controller.go:90-128 | The key of a known domain leaves the queue; the items that its listing calls for are queued in order beside those that wait, with no retries spent, and its own retries are forgotten when there are none |
| Retries.NewsIsQueued | pkg/controller/controller.go:193-288 | What is heard queues what it concerns and takes nothing from the queue: a domain its key, a ServiceRole or binding the domain its namespace decodes to, a tick every domain |
| Recovery.OneRoundConverges | pkg/controller/controller.go:90-128 | From an up-to-date listing, one sync and one answered pass over its items are a run that reaches the desired configs, when these are consistent |
| Recovery.RestIsWithinReach | pkg/controller/controller.go:56-268 | From every reachable state a run of undisturbed steps, of a length bounded by the queue, the events, the store and the desired configs, brings a domain with consistent desired configs to a quiescent state in which it has converged |
| Termination.EveryRunComesToRest | pkg/controller/controller.go:56-268 | From every reachable state in which earlier events have told what the server once held: every sequence of syncs, answered items and deliveries, in whatever order, is finite and ends with nothing pending, when domains have namespaces of their own and consistent desired configs; each tracked domain that was not given up before has then converged |
| Termination.StepCalms | pkg/controller/controller.go:56-268 | Every such step lowers a lexicographic measure of what is wrong on the server, which waiting items are not wanted any more, what the cache has yet to hear, which retries busy keys have left, and what waits |
| Termination.SomethingToDo | pkg/controller/controller.go:56-268 | A system that does not rest has such a step to take |
| Reconciler.OtherDomainsGoUnnoticed | pkg/controller/controller.go:193-206 | A change of another domain leaves a quiescent domain quiescent; it stays converged iff its desired configs ask for the same specs as before |
| TrustChanges.TrustChangeKeepsConvergenceIff | pkg/athenz/model.go:91-204 | With distinct config keys it stays converged iff each emitted role that trusts the changed domain is delegated the same accepted subjects as before |
| TrustChanges.SameSpecsIff | pkg/athenz/model.go:91-204 | With distinct config keys the desired configs of a domain ask for the same specs in two sets of domains iff every emitted role has the same accepted subjects in both |
| TrustChanges.TrustChangeGoesUnnoticed | pkg/controller/controller.go:193-206 | The failing input: a reachable state in which a domain is quiescent and converged, and a change of the domain it trusts after which it is quiescent and not converged |
| Reconciler.DeletedDomainKeepsItsResources | pkg/controller/controller.go:90-100 | Once a deleted domain's pending items are done, no run of the system changes an object of its namespace until someone else writes there or a domain comes to the namespace |
| Controllers.Controller.constructor | pkg/controller/controller.go:141-190 | With synced caches, keyed domains and no waiting items the controllers start in an initial state of the step system |
| Controllers.Controller.HandleResult | pkg/controller/controller.go:56-83 | Only errors other than not-found, already-exists and conflict ask for a retry of the item; a conflict queues the key again until its counter is at the limit |
| Controllers.Controller.Sync | pkg/controller/controller.go:90-128 | The change list from a cache listing to the desired configs joins the processor queue in order; the counter is forgotten when it is empty; an unknown domain changes nothing |
| Controllers.Controller.ProcessNextItem | pkg/controller/controller.go:242-268 | One call is one sync step of the step system on some waiting key |
| Controllers.Controller.HearConfig | pkg/controller/controller.go:203-206 | Hearing of a config is one delivery step: the cache takes what it is told, and the domain that the namespace decodes to is queued for the two kinds only |
| Controllers.Controller.HearDomain | pkg/controller/controller.go:193-200 | Hearing of a domain is one domain step |
| Controllers.Controller.Resync | pkg/controller/controller.go:272-288 | A tick is one resync step: the loop queues every domain of the informer and nothing else |
| Controllers.Processor.ProcessNextItem | pkg/istio/processor/controller.go:54-92 | One call is one item step of the step system on some waiting item, which for a lost call is what `LostCallIsRetried` says and for an answered one what `AnsweredCallIsDone` says |
| Controllers.Processor.RunWorker | pkg/istio/processor/controller.go:47-92 | Without new arrivals the queue drains in at most four syncs for each waiting item, whatever the server answers |
| Controllers.BudgetFalls | pkg/istio/processor/controller.go:54-92 | Every processed item lowers the sum over the waiting items of four minus their requeues |
| PolicyStores.HandleSucceedsIff | pkg/istio/rbac/common/util.go:86-101 | When the server answers, an item succeeds iff its key belongs to the dry-run directory, or an add finds the name free on the server, a delete finds it taken, an update finds it there under the version that the cache has; it panics iff an update of an enabled policy is missing from the cache |
| PolicyStores.HandleAllAt | pkg/istio/authorizationpolicy/controller.go:252-260 | Items with distinct keys that would each succeed now all succeed one after the other, each has its own effect, and other keys are untouched |
| PolicyStores.SyncAt | pkg/istio/authorizationpolicy/controller.go:238-260 | With the cache caught up, a sync meets no error and leaves at every key the policy that is due there; the store that the key does not belong to keeps its entry |
| PolicyStores.NamespaceListingSees | pkg/istio/rbac/v2/provider.go:274-289 | Under the routing invariant a namespace listing shows each key as the cache or the dry-run store has it, by the configuration, and shows unflagged entries once |
| PolicyReconciler.ItemsFailOnNewsOnly | pkg/istio/authorizationpolicy/controller.go:201-261 | In every reachable state: when the next item of a sync would fail although the server answers, an event of its key is pending, or has been delivered since the sync began and has queued the service key |
| PolicyReconciler.StaleAdditionFails | pkg/istio/rbac/common/util.go:86-89 | With both keys of one service queued and the stores empty, the second sync runs before the event of the first, computes the same addition, and is refused with already-exists and queued again |
| PolicyReconciler.FailingStartIsPossible | pkg/istio/authorizationpolicy/controller.go:112-129 | Such a state is initial for a domain `d` with one annotated service `s` |
| PolicyReconciler.DroppedObjectPanics | pkg/istio/rbac/common/util.go:91-95 | An enabled policy is outdated and its service key is queued: after the listing someone deletes the policy and the cache hears of it, and the update dereferences nil whatever the server answers |
| PolicyReconciler.PanicIsReachable | pkg/istio/rbac/common/util.go:91-95 | So a crashed state is reachable, from the start with domain `d` and service `s` whose policy is for another workload |
| PolicyReconciler.RetriesAreBounded | pkg/istio/authorizationpolicy/controller.go:138-164 | In every reachable state no requeue counter exceeds three |
| PolicyRetries.ItemEndsOrGoesOn | pkg/istio/authorizationpolicy/controller.go:138-164 | An item that succeeds makes way for the next one of the sync; one that fails ends the sync, and its key is queued again with one more retry while it has had fewer than three, else given up |
| PolicyRetries.UnknownKeyIsRetried | pkg/istio/authorizationpolicy/controller.go:138-201 | The key of an unknown domain is queued again in the same way, and nothing is written |
| PolicyRetries.KnownKeyIsTaken | pkg/istio/authorizationpolicy/controller.go:171-261 | The key of a known domain leaves the queue, its sync has all items that the listing calls for, in order, and its retries are forgotten when there are none |
| PolicyRetries.NewsIsQueued | pkg/istio/authorizationpolicy/controller.go:66-109 | What is heard queues what it concerns and takes nothing from the queue: a domain or a service its key, a policy the key of its service, a tick every domain |
| PolicyReconciler.ReachableStoresAreRouted | pkg/istio/authorizationpolicy/controller.go:274-302 | From an emptied dry-run directory and a cleaned-up server, every reachable state keeps enabled policies on the server and others in the directory, overridden server entries excepted, however syncs, events and lost calls interleave, as long as nobody else puts others on the server |
| PolicyReconciler.ServiceKeySyncRuns | pkg/istio/authorizationpolicy/controller.go:171-261 | From a caught-up state the undisturbed sync of a service key is a run of the step system that leaves the stores of `KeySync`, which reads domain and name from the key |
| PolicyReconciler.DomainKeySyncRuns | pkg/istio/authorizationpolicy/controller.go:171-261 | The same for a domain key and each of its listings |
| PolicyController.ServiceSyncAt | pkg/istio/authorizationpolicy/controller.go:171-261 | With the cache caught up, the sync of a service of a known domain brings its key to the next policy, touches nothing else, and keeps the routing invariant |
| PolicyController.DomainSyncAt | pkg/istio/authorizationpolicy/controller.go:171-261 | With the cache caught up, a domain-level sync meets no error, leaves at every key of the namespace what the shown and the wanted policy lead to, and touches nothing else |
| ServicePolicies.ServiceSyncFulfils | pkg/istio/authorizationpolicy/controller.go:171-261 | After an undisturbed sync of a service the policy in force for it is: the one kept by hand as it was; else for an annotated service one that selects by its `app` label and admits exactly the requests that the domain's model grants for its `svc` label at the clock and token flag; else none |
| ServicePolicies.DomainSyncFulfils | pkg/istio/authorizationpolicy/controller.go:171-261 | So it is after an undisturbed domain-level sync, for every name that it does not overlook |
| PolicyController.DomainSyncEqualsKeySyncs | pkg/istio/authorizationpolicy/controller.go:171-261 | For every domain: a domain-level sync leaves both stores as the syncs of the service keys of all names of the namespace do, in any order and with repetitions, the cache catching up in between, iff the two agree about every single name |
| PolicyController.DomainSyncEqualsServiceSyncs | pkg/istio/authorizationpolicy/controller.go:171-261 | For a decodable domain that is so iff no policy is overlooked: none is shadowed by an overridden API entry or missed through an `ns/` entry |
| PolicyController.UndecodableDomainSync | pkg/istio/authorizationpolicy/controller.go:171-201 | For an undecodable domain whose service keys are read as those of an unknown domain, these keys change nothing, and the two kinds of sync come to the same iff the domain-level sync has nothing to do |
| PolicyController.SharedNamespaceSync | pkg/istio/authorizationpolicy/controller.go:171-201 | When the domain that the service keys are read as is known and no policy is overlooked, the two kinds of sync come to the same iff both domains want the same of every annotated service whose policy is not overridden |
| PolicyController.UndecodableDomainDiverges | pkg/istio/authorizationpolicy/controller.go:171-201 | The failing input `a.-b`: with an annotated service and empty stores the domain-level sync writes its policy and the service key does nothing, though nothing is overlooked |
| PolicyController.NamespaceEntryHidesDryRunPolicies | pkg/istio/rbac/v2/provider.go:282-284 | With an `ns/` entry in the enabled list a stale dry-run policy survives domain-level syncs, not service-level ones |
| PolicyController.ServiceKeyLooksUpItself | pkg/istio/authorizationpolicy/controller.go:171-201 | The service key that sync looks up is the one it was given iff the namespace has no dot |
| PolicyConvergence.QuiescenceDecidesConvergence | pkg/istio/authorizationpolicy/controller.go:138-261 | In every state without a crash that is reached while no other domain takes the namespace and nobody else puts policies on the server that are neither enabled nor overridden: a policy of a trust-free decodable domain for which no key, event or item is pending and no retry limit was hit has converged in the store it belongs to iff domain-level syncs do not miss it |
| ServicePolicies.RestFulfils | pkg/istio/authorizationpolicy/controller.go:138-261 | And so it is in every such state in which nothing is pending for the name and domain-level syncs do not miss it, whatever happened before |
| PolicyConvergence.MissedIsOverlooked | pkg/istio/rbac/v2/provider.go:274-289 | A missed policy is an overlooked one, and without an `ns/` entry for the namespace an overlooked one is missed |
| PolicyTermination.EveryRunComesToRest | pkg/istio/authorizationpolicy/controller.go:138-261 | From every reachable state every sequence of syncs, answered items and deliveries, in whatever order, is finite and ends with nothing pending or in a crash, when domains have namespaces of their own; a tracked policy for which no retry limit was hit has then converged iff it is not missed |
| PolicyTermination.StepCalms | pkg/istio/authorizationpolicy/controller.go:138-261 | Every such step that does not crash lowers a lexicographic measure of what is off on the server or in the cache, which items are not wanted or are overtaken, what the cache has yet to hear, which retries busy keys have left, and what waits |
| PolicyTermination.SomethingToDo | pkg/istio/authorizationpolicy/controller.go:138-261 | A system that does not rest has such a step to take, listings included |
| PolicyControllerObject.Controller.CleanUpStaleAP | pkg/istio/authorizationpolicy/controller.go:387-420 | Enabled and overridden policies stay as they are and nothing is added, however the API calls go; without an API error only they stay, and the controller is in an initial state of the step system |
| PolicyControllerObject.Controller.ProcessConfigChange | pkg/istio/authorizationpolicy/controller.go:274-302 | An item goes to the store its key belongs to, under the version that the cache has; the call may be refused or lost on either way, and an update that the cache lacks panics |
| PolicyControllerObject.Controller.GetCurrentIstioRbac | pkg/istio/rbac/v2/provider.go:274-306 | A namespace listing or the one policy of a service, from the cache and the directory as the configuration selects |
| PolicyControllerObject.Controller.StartSync | pkg/istio/authorizationpolicy/controller.go:171-250 | Taking up a key, of either kind, is one enabled sync step: listing, compiling all annotated services and computing the change list, or a retry when the domain is unknown; what the compiled policies admit is stated by the rows of ServicePolicies |
| PolicyControllerObject.Controller.HandleItem | pkg/istio/authorizationpolicy/controller.go:252-260 | One turn of the loop of sync is one item step, a failure and a panic included |
| PolicyControllerObject.Controller.ProcessNextItem | pkg/istio/authorizationpolicy/controller.go:138-164 | A whole turn of the worker is a run of the step system from a waiting key, whatever the API answers, and ends with no sync in progress or in a crash |
| PolicyControllerObject.Controller.HearPolicy | pkg/istio/authorizationpolicy/controller.go:94-99 | Hearing of a policy is one delivery step, which queues its service key |
| Onboarding.ServiceList.RemoveIndexElement | pkg/istio/onboarding/controller.go:345-354 | In place, the element at the index makes way for the last one; an index outside the list other than its length changes nothing |
| Onboarding.DeleteServices | pkg/istio/onboarding/controller.go:119-137 | Working in place, each service of the argument is taken out once where it occurs first; no index out of range arises |
| Onboarding.AddServices | pkg/istio/onboarding/controller.go:108-116 | The services are appended in order |
| Onboarding.CompareServiceLists | pkg/istio/onboarding/controller.go:328-342 | The result is the elements of the first list that the second lacks, in order, with repetitions |
| Onboarding.RemoveEachTakesAll | pkg/istio/onboarding/controller.go:119-137 | The swap-remove loop subtracts one multiset of services from the other |
| Onboarding.MergeCounts | pkg/istio/onboarding/controller.go:262-300 | After a merge offboarded services are gone with all occurrences, listed ones stay as often as before, new ones come as often as the cluster has them |
| Onboarding.Sync | pkg/istio/onboarding/controller.go:215-304 | From the stored config and the cluster's services a sync hands on the specified item or none; `SyncSucceedsIff` and `OneSyncOnboards` say that it is the right one for the server |
| Onboarding.SyncSucceedsIff | pkg/istio/onboarding/controller.go:215-304 | The item of a sync is accepted iff the server has no config when none was seen, and when one was seen still has it, in the version seen unless it is to be removed |
| Onboarding.OneSyncOnboards | pkg/istio/onboarding/controller.go:215-304 | From every store, the item of a sync that saw the stored config is accepted and touches no other object; it leaves no config iff no service is onboarded, else inclusion mode with the same set of services and the excluded ones of a config that was in inclusion mode |
| Onboarding.ClusterIsOnboarded | pkg/istio/onboarding/controller.go:165-304 | The services listed afterwards are exactly the host names of the cluster's annotated services |
| Onboarding.HostNameReads | pkg/istio/onboarding/controller.go:176-180 | A host name reads, dot by dot, as the name and namespace of the service and the suffix |
| Onboarding.OneSyncPermutes | pkg/istio/onboarding/controller.go:215-304 | When neither list repeats a service the new list is a permutation of the cluster's |
| Onboarding.NextSyncIsIdle | pkg/istio/onboarding/controller.go:215-304 | The sync after that does nothing |
| Onboarding.SyncActsIff | pkg/istio/onboarding/controller.go:215-304 | A sync does nothing iff the stored config already onboards exactly the cluster's services |

## Left out

- Kubernetes, Istio and Athenz clients, informers, goroutines and rate-limit delays: they are nondeterministic steps, sets of waiting keys with counters, and maps. One handler call is one step.
- The YAML files of the dry-run directory: the directory is a map from keys to configs, and reading or writing it does not fail.
- Logging, flag parsing, process set-up and metrics; only the emptying of the dry-run directory at start is kept.
- Istio's validation of ServiceRoles and bindings, `regexp.MatchString` for service names, and Istio's string matching: parameters of the model.
- Nil members, policies, assertions and pointers, on which the code panics: assumed absent. A nil domain informer, too.
- Protobuf equality: structural equality of specs.
- Strings that are not valid UTF-8, and upper-casing of code points whose upper case is not ASCII: those never equal a supported method.
- `ParseComponentsEnabledAuthzPolicy`: only its result is used.
- The clock is read once for each compilation, where the code reads it for each member.
- Config keys are triples, where the code joins type, namespace and name with slashes, which none of the three can contain.
- The clock stands still during a run of the policy step system; a policy that changes because a member expires waits for the next sync.
- The informers of the policy controller have synced, and nothing is pending, when `cleanUpStaleAP` starts.
- Names of Kubernetes objects are not empty and have no slash, domain names have no slash.
- PolicyController.DomainSyncEqualsKeySyncs: compares syncs without API errors and with the cache caught up before each; PolicyReconciler says what happens otherwise.
- PolicyConvergence.QuiescenceDecidesConvergence: excludes domains with trust roles and undecodable names, domains whose namespace another domain takes, and runs in which somebody else puts policies that are neither enabled nor overridden on the server.
- Termination.EveryRunComesToRest: lost calls and ticks of the resync are not among its steps, since either can go on forever; earlier events are taken to tell what the server once held, where the other results about this system allow anything.
- PolicyTermination.EveryRunComesToRest: lost calls and ticks of the resync are not among its steps either.
- Reconciler.QuiescenceImpliesConvergence: domains with trust roles and domains whose name cannot be read back from the namespace are excluded, since nothing queues them when they need it.
- Onboarding.Sync: the config that `Get` returns is a private copy, so the edits in place before the update are not visible to others; the queue, the callback and the retries of this controller work like those of the main one and are left out. `default`, the name of the config, is a constant of Istio.
- ServiceRoleMeaning.ServiceRolesPreserveMeaning: assumes that Istio accepts every config and that keys are distinct; OnlyRefusedAreWithheld and KeysDistinctIff say what happens otherwise.
- ServicePolicies.DomainSyncFulfils: excludes overlooked names, for which DomainSyncAt says what a domain-level sync leaves.
- Onboarding.ServiceList.RemoveIndexElement: excludes the index equal to the length, which the guard lets through to a failing access; deleteServices never passes it.
- The callback handlers of the authorization policy controller: neither of its item handlers calls them.
- The `gaveUp` field of `Reconciler.State` is history; the code has nothing like it.
