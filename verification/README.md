# Verified model of cdn-origin-controller

The controller turns a group of Kubernetes Ingresses into one CloudFront distribution and a set of Route53
records. This project models its three cores and proves what they promise:

1. **The path-rule compiler.** Ingress paths are merged per origin host, expanded to path patterns, gathered and
   sorted; CloudFront then serves a request by the first pattern that matches. `PathRules` states the Kubernetes
   rules ("Path types" and "Multiple matches" of the Ingress documentation) independently of the code, `Glob` states
   CloudFront's pattern matching, and `RoutingMeetsKubernetes` connects the two. Modules: `GoStrings`, `Specificity`,
   `Glob`, `PathRules`, `Associations`, `SharedParams`, `Functions`, `OriginAccess`, `Compiler`, `CompiledBehaviors`.
2. **The Route53 ownership protocol.** `Zone` is a hosted zone with all-or-nothing batches; `AliasRepository` is the
   repository that reads, validates and submits; `Ownership` states what calls keep when they run alone,
   `Interleaving` what they keep when the listings and commits of several classes alternate in any order,
   `AliasRoundTrip` that Delete undoes Upsert, `AliasDeletion` when Delete succeeds, and `RoutingPolicies` that no call
   ever changes a record set with a routing policy.
3. **The reconcile state machine.** `CdnStatuses`, `DistRepository` and `Reconciler` model one reconciliation with
   every remote call able to fail. `AccessControlSafety`, `AliasBookkeeping`, `ReconcilerRuns` and
   `ReconcilerConvergence` prove what holds after one reconciliation and over runs of any length, `AccessControlRuns`
   that access controls stay in order over runs, and `ReconcilerSuccess` exactly when a reconciliation succeeds.
   `DesiredState` says in terms of Ingress fields what is desired, `DeployedRouting` and `DeployedFunctions` what
   CloudFront then has and how it routes, `AliasTargets` where the names point, `Admission` which reconciliations get to
   apply the desired state, `StatusNotes` what the status says, `FailureReporting` that no failure is swallowed, and
   `DeletionDisabled` that nothing disappears without deletion. `FailedUpdates` and `SharedLabelExample` say what a
   failed update costs.

Code that updates state in place is a class or a method over an array; its `ensures` ties the new state to a function
of the old one, and the lemmas are about those functions. Strings are sequences of bytes, one `char` a byte, because
the comparison of patterns steps by UTF-8 rune and compares bytes. Every remote call is a step that fails or not as a
parameter says (`Faults`, `Circumstances`); ids that CloudFront hands out, the shortened MD5 digest and the iteration
order of Go maps are arbitrary.

## Where the code does less than its documentation

Each of these is a lemma of this project; the model follows the code.

- Routing is what Kubernetes prescribes except for one family of requests: an Exact rule with a path that ends in a
  slash and a Prefix rule with the same path without it (`/foo/` and `/foo`, or `/` and `/`). The Prefix rule's
  pattern `/foo/*` is longer than `/foo/`, so it wins. `RoutingMeetsKubernetes` shows that this is the only
  exception, `ClashGoesToPrefix` and `RootRulesClash` that it exists. It contradicts README.md:19 of the repository.
- The order of patterns is total on ASCII only: patterns of one length whose runes share their lead bytes tie
  (`NotAntisymmetric`, `TiesExactly`).
- A merge of valid function associations may mix the function types of viewer request and response
  (`MergeMayMixViewerTypes`); `MergeOfValid` says exactly when.
- Paths of one host that expand to one pattern all add their functions to its behavior, although CloudFront takes one
  per event; `CompiledEventsAreDistinctIff` says exactly when they collide, and `TwofoldIngressCollides` shows an
  Ingress with one path as Prefix and as Exact for which they do.
- Bucket hosts with one first label share an access control (`SameLabelSameName`). Removing one of them asks
  CloudFront to delete an access control in use, and the update fails; `SyncSucceedsIffNothingNeededIsDeleted` is the
  exact condition, `SharedLabelExample` a group that meets it.
- When updating or creating the distribution fails, the alias step runs on an empty distribution and deletes the
  names it tracks (`FailedUpdateDropsAliases`). `UpdateKeepsAliasesIff` says exactly when an update in which no remote
  call fails keeps the aliases, and `SharedLabelLosesAliases` shows a group that loses them.
- After such a loss AAAA records stay behind without an owner. A lost name can be had again if and only if no AAAA
  record is asked for that was there before (`LostNamesCanBeUpsertedIff`). With IPv6 enabled such a name is blocked in
  every run that follows: no reconciliation of a group that desires it succeeds (`FailedUpdateBlocksNames`, and for the
  example `SharedLabelBlocksForGood`).
- With deletion disabled, a group that loses its last Ingress keeps its records and its distribution, but the
  controller forgets which names it tracked (`EmptiedGroupForgets`).
- A DNS section that was flagged after a failure stays flagged however many synchronisations succeed
  (`FlagStaysUp`): the flag is set back after the status has been written.
- Delete undoes Upsert exactly if the TXT sets that were there had a TTL of 300 (`DeleteUndoesUpsert`).
- With split reads and commits a class can lose a name it has just taken (`StaleCommitTakesOver`): exactly if the
  committing call had collected a change to the name's TXT set (`CommitTakesOverIffCollected`). What no interleaving
  can break is that each TXT set has at most one owner and all its foreign values.

## Model

| member | source | states |
|---|---|---|
| Specificity.IsInMostSpecificOrder | internal/cloudfront/sort.go:47-78 | on valid UTF-8 the rune loop answers the documented order: longer first, then lexicographic by lead byte with literals before `?` before `*` |
| Specificity.InOrderIsLeq | internal/cloudfront/sort.go:47-78 | the rune-stepping comparison equals the reference order on every pair of valid UTF-8 patterns |
| Specificity.InOrderIsTotalPreorder | internal/cloudfront/sort.go:38-78 | the order is reflexive, total and transitive, and its negation is transitive, as a sort needs |
| Specificity.TiesExactly | internal/cloudfront/sort.go:53-74 | two patterns tie if and only if they have one length and one sequence of lead bytes |
| Specificity.AsciiAntisymmetric | internal/cloudfront/sort.go:47-78 | on ASCII no two different patterns tie |
| Specificity.NotAntisymmetric | internal/cloudfront/sort.go:53-54 | beyond ASCII two different patterns do tie |
| Specificity.Less | internal/cloudfront/sort.go:34-36 | answers the order of the two elements' patterns |
| Specificity.Swap | internal/cloudfront/sort.go:31-33 | exchanges two elements in place and nothing else |
| Specificity.Sort | internal/cloudfront/distribution.go:68-68 | an in-place insertion sort through Less and Swap; the result is the sorted sequence, an ordered permutation |
| Specificity.SortedIsOrdered | internal/cloudfront/distribution.go:62-70 | sorting valid UTF-8 patterns orders them throughout |
| Specificity.SortedIsPermutation | internal/cloudfront/distribution.go:62-70 | sorting keeps every behavior as often as it was there |
| Specificity.OrderedArrangementIsUnique | internal/cloudfront/distribution.go:62-70 | ordered ASCII patterns are determined by their multiset, so every correct sort gives the same sequence |
| Glob.FirstMatchMeaning | README.md:133-160 | the serving behavior matches, nothing matches only if no behavior does, and every other match sorts after it |
| Glob.LiteralMatches | README.md:149-150 | a wildcard-free pattern matches exactly itself |
| Glob.TrailingStarMatches | internal/cloudfront/service_helpers.go:62-69 | a literal followed by `*` matches exactly the strings it is a prefix of |
| Glob.GeneralizationNeverShadows | README.md:137-160 | a pattern with characters generalized in place matches more and sorts strictly later |
| Glob.NoRequestIsShadowed | README.md:152-160 | in an ordered list a request that a behavior matches is never served by a proper generalization of it |
| PathRules.ElementPrefixIsStringPrefix | internal/cloudfront/service_helpers.go:62-69 | a path is an element-wise prefix of a request exactly if it equals it or is a string prefix up to a slash |
| PathRules.PatternsMatchWhatTheRuleMatches | internal/cloudfront/service_helpers.go:54-69 | some compiled pattern of a rule matches a request if and only if the rule does in Kubernetes' sense |
| PathRules.BestExists | README.md:19-19 | if any rule matches, one has Kubernetes' precedence |
| PathRules.BestIsUniqueUpToHost | README.md:19-19 | rules of equal precedence agree on type and normalized path |
| PathRules.NoMatchWithoutRule | internal/cloudfront/service_helpers.go:54-69 | no pattern matches a request exactly when no rule does |
| PathRules.BestPatternComesFirst | internal/cloudfront/sort.go:47-78 | without a clash, no other rule's matching pattern sorts at or before the pattern of the preferred rule |
| PathRules.RoutingMeetsKubernetes | internal/cloudfront/service_helpers.go:54-69 | compile, sort and first match serve each request by the rule Kubernetes prefers if and only if it is no trailing-slash clash, and serve none exactly when no rule matches |
| PathRules.NoClashIsWon | internal/cloudfront/sort.go:47-78 | without a clash the serving pattern is the one through which every preferred rule matches |
| PathRules.ClashIsLost | internal/cloudfront/service_helpers.go:62-69 | in a clash the request is never served by the preferred rule |
| PathRules.ClashGoesToPrefix | internal/cloudfront/service_helpers.go:62-69 | of two clashing rules Kubernetes prefers the Exact one and the request goes to the Prefix one |
| PathRules.RootRulesClash | internal/cloudfront/service_helpers.go:62-65 | Exact `/` and Prefix `/` are such rules |
| PathRules.ExactRulesAffectOnlyTheirPath | internal/cloudfront/service_helpers.go:54-59 | a request that equals no Exact path is served by the same pattern with and without the Exact rules, and by the same host unless two hosts share a Prefix path |
| PathRules.RoutingBesidePatterns | internal/cloudfront/service_helpers.go:54-59 | paths of other types, whose patterns are taken as they are, change nothing for the requests that they do not match |
| PathRules.RoutingOfAllTypes | internal/cloudfront/service_helpers.go:54-69 | with paths of all types, a request is served by none exactly if no Exact or Prefix rule matches it and no other path does as a pattern |
| PathRules.OtherPathServes | internal/cloudfront/service_helpers.go:54-59 | a path of another type serves every request that it matches as a pattern, unless another matching behavior sorts at or before it |
| PathRules.PatternsAreWritten | internal/cloudfront/service_helpers.go:54-69 | a path of another type than Prefix has itself as its only pattern; a Prefix path has, without its trailing slash, itself and the paths below it |
| Associations.Merge | internal/k8s/function_association.go:75-124 | succeeds exactly if the slots agree where both are set, with each slot from the side that has it |
| Associations.MergeIsLeastUpperBound | internal/k8s/function_association.go:75-124 | a merge is the least configuration above both inputs, and fails exactly if there is none above both |
| Associations.MergeLaws | internal/k8s/function_association.go:75-124 | merging is a partial idempotent commutative monoid with the empty value as unit |
| Associations.MergeOfValid | internal/k8s/function_association.go:52-124 | merging valid inputs keeps every single-slot rule, and is valid if and only if each side's viewer request fits the other's viewer response |
| Associations.MergeMayMixViewerTypes | internal/k8s/function_association.go:206-211 | some valid inputs merge to an invalid result |
| SharedParams.MergedPaths | internal/k8s/ingress.go:127-171 | succeeds if and only if all mentions of a path of a host agree, and then holds per host and path the join of what they configure |
| SharedParams.MapOfOriginHostToPath | internal/k8s/ingress.go:173-186 | lists each merged path of a host once, with its functions, for any map iteration order |
| SharedParams.JoinOfValid | internal/k8s/function_association.go:52-124 | what valid mentions of a path configure together is valid if and only if every viewer request among them fits every viewer response |
| SharedParams.MergedWebACL | internal/k8s/ingress.go:188-202 | succeeds if and only if at most one ARN is annotated, and returns that one |
| SharedParams.NewSharedIngressParams | internal/k8s/ingress.go:106-121 | conflicting ARNs fail first, then conflicting paths; otherwise both results hold |
| SharedParams.MergingIgnoresOrder | internal/k8s/ingress.go:106-186 | Ingress lists that mention the same paths and ARNs all fail alike or all give the same parameters |
| SharedParams.PermutationMentionsTheSame | internal/k8s/ingress.go:127-171 | permuting the Ingresses keeps their mentions and ARNs |
| SharedParams.PathOrderMentionsTheSame | internal/k8s/ingress.go:127-171 | permuting the paths within Ingresses keeps their mentions and ARNs |
| Functions.NewFunctions | internal/cloudfront/function.go:39-81 | one function per configured slot, in slot order and of the slot's kind |
| Functions.NewCacheBehavior | internal/cloudfront/aws_models.go:178-229 | pattern and target are the behavior's, and its functions are split by kind |
| Functions.FunctionsAreConserved | internal/cloudfront/aws_models.go:203-229 | the two lists of a cache behavior together hold exactly what the slots ask for, each event type once, in the list of its kind, `includeBody` kept |
| Functions.ValidIffSendable | internal/k8s/function_association.go:52-73 | associations are valid if and only if the viewer types are known and what they ask for names its functions, uses one list for the viewer events and loses no `includeBody` |
| OriginAccess.SameLabelSameName | internal/cloudfront/oac.go:55-66 | hosts with one first label get one access control name, whatever the digest |
| OriginAccess.ShortNamesDifferByLabel | internal/cloudfront/oac.go:55-66 | names within the length limit are equal if and only if the first labels are |
| OriginAccess.ShortName | internal/cloudfront/oac.go:55-66 | up to 63 characters, the name is the group and the first label of the host |
| OriginAccess.LongNamesDifferByDigest | internal/cloudfront/oac.go:55-66 | longer names are equal if and only if the digests of group and label are |
| OriginAccess.NamesFit | internal/cloudfront/oac.go:55-66 | with digests of eight digits, every name fits the limit and starts with the first label of the group, if that leaves room |
| Compiler.OriginBuilder.constructor | internal/cloudfront/origin.go:128-138 | a new builder has the default timeout and no behaviors |
| Compiler.OriginBuilder.WithBehavior | internal/cloudfront/origin.go:149-158 | a new pattern is added, a known pattern gets the functions appended, the rest of the map stays |
| Compiler.OriginBuilder.WithResponseTimeout | internal/cloudfront/origin.go:185-190 | only a positive timeout replaces the current one |
| Compiler.OriginBuilder.AddBehaviors | internal/cloudfront/origin.go:220-225 | the behaviors are the entries of the map, each once, for any iteration order |
| Compiler.OriginBuilder.Build | internal/cloudfront/origin.go:199-255 | the origin has the behaviors of the map, and an access control exactly if it is a bucket |
| Compiler.NewOrigin | internal/cloudfront/service_helpers.go:37-52 | the origin has one behavior per pattern that a merged path of its host expands to |
| Compiler.AlternateDomainsMeaning | internal/cloudfront/distribution.go:173-180 | the distribution has the domains of all its Ingresses, none twice |
| Compiler.AppendMissingOrder | internal/cloudfront/distribution.go:173-180 | domains that are there keep their place, and new ones come in the order in which they are added |
| Compiler.ValidateOrigins | internal/cloudfront/distribution.go:255-270 | fails exactly if two origins of one host have different parameters |
| Compiler.MergedByHostMeaning | internal/cloudfront/distribution.go:286-298 | every host once, with the settings of its first origin and the behaviors of all its origins in order |
| Compiler.MergeCustomOrigins | internal/cloudfront/distribution.go:274-298 | merges by host as just said; origins of distinct hosts survive unchanged, as a multiset |
| Compiler.OriginSlice | internal/cloudfront/distribution.go:247-253 | the slice has the values of the map, each once, for any iteration order |
| Compiler.ClashIsWithDefault | internal/cloudfront/distribution.go:255-270 | origins built by host clash exactly if the default host is contributed with parameters unlike the default's |
| Compiler.DistributionBuilder.constructor | internal/cloudfront/distribution.go:121-130 | a new builder has no origins, domains or web ACL |
| Compiler.DistributionBuilder.WithOrigin | internal/cloudfront/distribution.go:135-138 | the origin replaces the one of its host and no other |
| Compiler.DistributionBuilder.WithAlternateDomains | internal/cloudfront/distribution.go:173-180 | appends the domains that are not there yet, in order |
| Compiler.DistributionBuilder.Build | internal/cloudfront/distribution.go:202-224 | fails exactly on a clash with the default host; otherwise has every origin once and all settings |
| Compiler.NewDistribution | internal/cloudfront/service.go:215-262 | the desired distribution, with the last Ingress of a host deciding its settings and the web ACL from annotation or else the existing distribution |
| Compiler.LastIngressDecides | internal/cloudfront/service.go:230-234 | the last Ingress of a host decides the access and the timeout of its origin, 30 seconds where it says nothing |
| Compiler.DefaultOriginDecides | internal/cloudfront/distribution.go:202-224 | the default origin is public and waits 30 seconds; building fails if and only if the last Ingress of its host disagrees |
| Compiler.Configure | internal/cloudfront/service.go:236-259 | sets IPv6, web ACL and identity, and leaves origins and domains alone |
| CompiledBehaviors.SortedCustomBehaviors | internal/cloudfront/distribution.go:62-70 | an ordered permutation of all origins' behaviors |
| CompiledBehaviors.DesiredBehaviors | internal/cloudfront/service.go:146-168 | fails exactly on conflicting ARNs, conflicting paths or a default-host clash, and otherwise compiles faithfully |
| CompiledBehaviors.CompilationIsFaithful | internal/cloudfront/distribution.go:62-70 | the pairs of host and pattern are duplicate-free and exactly the expansions of all paths, ordered, with the merged functions of all paths that expand to them |
| CompiledBehaviors.CompiledPairsAreWritten | internal/cloudfront/service_helpers.go:37-69 | a host has a behavior for a pattern if and only if some Ingress of the host has a path that is written as the pattern |
| CompiledBehaviors.BehaviorMapKeys | internal/cloudfront/service_helpers.go:37-52 | the patterns of an origin are exactly those its paths expand to |
| CompiledBehaviors.BehaviorMapEntry | internal/cloudfront/origin.go:149-158 | a pattern carries the functions of every path that expands to it, one path after the other |
| CompiledBehaviors.CompiledRoutingMeetsKubernetes | internal/cloudfront/service.go:146-168 | the routing theorem for whatever the compiler produces from Ingresses, for each request that no path of another type matches |
| CompiledBehaviors.CompiledPatternsAreUnique | internal/cloudfront/distribution.go:62-70 | with ASCII patterns the sorted sequence does not depend on Ingress order, path order or map iteration |
| CompiledBehaviors.CompiledFunctionsAreConserved | internal/cloudfront/aws_models.go:178-229 | end to end, a behavior from one path sends exactly the slots that the Ingresses together configure for it |
| CompiledBehaviors.CompiledEventsAreDistinctIff | internal/cloudfront/origin.go:149-158 | a compiled behavior asks for one function per event if and only if no two paths that expand to its pattern configure one slot |
| CompiledBehaviors.TwofoldIngressCollides | internal/cloudfront/origin.go:149-158 | a valid Ingress without conflicts for which every compilation asks for two functions of one event |
| Zone.ApplyBatchConcat | internal/route53/repository.go:118-129 | a batch in two parts takes effect as the parts one after the other, or not at all |
| Zone.BatchFrame | internal/route53/repository.go:118-129 | a batch leaves every key that it does not name |
| Zone.BatchEffect | internal/route53/repository.go:118-129 | a key ends as its changes say, and a deletion had matched exactly |
| AliasRepository.NormalizeDomains | internal/route53/alias.go:83-96 | every domain is made absolute with one trailing dot, in order |
| AliasRepository.NewAliases | internal/route53/alias.go:48-70 | one entry per absolute domain, with A and, for IPv6, AAAA |
| AliasRepository.FilterRecordSets | internal/route53/repository.go:184-199 | keeps the requested addresses and the last TXT set of the entry's name |
| AliasRepository.FilteredListing | internal/route53/repository.go:131-199 | what is filtered from the two listings is what the zone holds under the entry |
| AliasRepository.ValidateOwnership | internal/route53/repository.go:265-276 | the first value that is this class's or another's decides |
| AliasRepository.ValidateRecordSets | internal/route53/repository.go:215-243 | accepts exactly simple routing with no address where nobody owns the name, or this class first among the owners |
| AliasRepository.NewAliasChanges | internal/route53/repository.go:299-320 | one alias change per requested type |
| AliasRepository.RemoveOwnershipRecord | internal/route53/repository.go:357-364 | shifts in place; the first occurrence is gone and the rest keeps its order |
| AliasRepository.NewTXTChangeForDelete | internal/route53/repository.go:326-346 | writes back what is left, or deletes the set exactly as it was if nothing is left |
| AliasRepository.Repository.constructor | internal/route53/repository.go:59-61 | starts from a given zone |
| AliasRepository.Repository.ExistingRecordSets | internal/route53/repository.go:201-213 | returns the name's record sets exactly if listing works and they validate |
| AliasRepository.Repository.RequestChanges | internal/route53/repository.go:118-129 | all changes take effect or the zone stays |
| AliasRepository.Repository.Upsert | internal/route53/repository.go:63-85 | reads and validates every entry, then one batch; zone and result are those of the call's outcome function |
| AliasRepository.Repository.EntryDeletion | internal/route53/repository.go:88-111 | the changes for one entry, with the target of the first existing address |
| AliasRepository.Repository.Delete | internal/route53/repository.go:87-116 | as Upsert, with the target carried from entry to entry |
| Ownership.OwnershipValueIsOwnership | internal/route53/alias.go:48-70 | the value that a class writes is recognised as an ownership record |
| Ownership.DeletionGivesUpOneValue | internal/route53/repository.go:326-364 | the TXT set is deleted, named as it was read, if the own value was all it had; otherwise it is written back without the first own value |
| Ownership.FirstOwnerDecides | internal/route53/repository.go:265-297 | a TXT set is accepted if and only if the first value that names an owner, if any does, names this class |
| Ownership.AcceptedOwner | internal/route53/repository.go:265-297 | an accepted TXT set with at most one owner has none or this class |
| Ownership.CallsRespectOwners | internal/route53/repository.go:63-129 | a failing call changes nothing, a name of another class is never touched, and an existing address changes only where the TXT set had the caller's value |
| Ownership.UpsertAchieves | internal/route53/repository.go:63-85 | after success all requested addresses and TXT sets are as asked for, everything else as before |
| Ownership.DeleteAchieves | internal/route53/repository.go:87-116 | after success the requested addresses are gone, one own value is removed from each TXT set, everything else is as before |
| Ownership.DeleteDisowns | internal/route53/repository.go:87-116 | after success no named TXT set has an owner |
| Ownership.CallsKeepSingleOwners | internal/route53/repository.go:63-116 | calls that run alone keep at most one owner and exactly the foreign values of every name |
| Interleaving.UninterruptedCallIsOutcome | internal/route53/repository.go:63-116 | both listings of every entry and the commit, without interference, make up the repository's call |
| Interleaving.UninterruptedRun | internal/route53/repository.go:63-129 | every call without faults is a run of these steps, from its beginning to the zone that the call leaves |
| Interleaving.StepKeepsInvariant | internal/route53/repository.go:131-364 | first and second listings, commits, failures and new calls keep the invariant, whoever they belong to |
| Interleaving.InterleavingsKeepValues | internal/route53/repository.go:63-116 | over every interleaving each TXT set keeps at most one owner and exactly its original foreign values in order |
| Interleaving.CommitTakesOverIffCollected | internal/route53/repository.go:63-129 | over any run a commit takes a name from another class if and only if its batch has a change to the name's TXT set, and otherwise touches no record of the name |
| Interleaving.StaleCommitTakesOver | internal/route53/repository.go:63-85 | for any two classes and free name there is a run in which the later commit takes the name over |
| AliasRoundTrip.UpsertSucceedsIffValid | internal/route53/repository.go:63-85 | if no call fails, Upsert succeeds if and only if every entry validates |
| AliasRoundTrip.UpsertIsIdempotent | internal/route53/repository.go:63-85 | a second Upsert succeeds and changes nothing |
| AliasRoundTrip.DeletePrefix | internal/route53/repository.go:87-116 | deleting the first n upserted entries undoes these and only these |
| AliasRoundTrip.DeleteUndoesUpsert | internal/route53/repository.go:63-116 | on free distinct names both succeed, and the zone is restored if and only if its TXT sets there had the controller's TTL |
| AliasDeletion.DeleteSucceedsIffErasable | internal/route53/repository.go:87-116 | if no call fails, Delete succeeds if and only if no name comes twice and every entry validates, has its addresses alike as written, and a TXT set that is as written where it has to go |
| AliasDeletion.DeleteIgnoresTarget | internal/route53/repository.go:87-116 | the target that Delete is given makes no difference, whichever calls fail: the existing addresses decide |
| CdnStatuses.CDNStatus.constructor | api/v1alpha1/cdnstatus_types.go:40-50 | starts from a given status |
| CdnStatuses.CDNStatus.SetAliases | api/v1alpha1/cdnstatus_types.go:72-74 | replaces the aliases and nothing else |
| CdnStatuses.CDNStatus.SetInfo | api/v1alpha1/cdnstatus_types.go:169-173 | replaces id, ARN and address and nothing else |
| CdnStatuses.CDNStatus.SetIngressRef | api/v1alpha1/cdnstatus_types.go:117-130 | notes one Ingress as synced or failed |
| CdnStatuses.CDNStatus.RemoveIngressRef | api/v1alpha1/cdnstatus_types.go:133-139 | forgets one Ingress |
| CdnStatuses.CDNStatus.UpsertDNSRecords | api/v1alpha1/cdnstatus_types.go:77-92 | the tracked names become the union |
| CdnStatuses.CDNStatus.RemoveDNSRecords | api/v1alpha1/cdnstatus_types.go:95-109 | the tracked names become the difference |
| CdnStatuses.CDNStatus.SetDNSSync | api/v1alpha1/cdnstatus_types.go:161-166 | sets the flag and keeps the tracked names |
| CdnStatuses.Filter | internal/strhelper/strings.go:59-68 | keeps all but one name, in order |
| CdnStatuses.TrackedAfterUpsert | api/v1alpha1/cdnstatus_types.go:77-92 | adding records makes the tracked names the union |
| CdnStatuses.TrackedAfterRemoval | api/v1alpha1/cdnstatus_types.go:95-109 | removing records makes them the difference, also when the section disappears |
| CdnStatuses.AddMissingOrder | api/v1alpha1/cdnstatus_types.go:77-92 | tracked names keep their place, and new ones come in the order in which they are added |
| CdnStatuses.WithoutAllOrder | api/v1alpha1/cdnstatus_types.go:95-109 | names that stay tracked keep their order |
| DistRepository.Repository.constructor | internal/cloudfront/repository.go:72-80 | starts from a given cloud |
| DistRepository.NewAWSDistributionConfig | internal/cloudfront/aws_models.go:35-119 | switched on, with the domains, the web ACL and IPv6 as asked for, the default origin first, then the custom origins, and the sorted behaviors in CloudFront's form |
| DistRepository.Repository.GetOAC | internal/cloudfront/oac_repository.go:119-148 | finds the first access control with the id or the name |
| DistRepository.Repository.SyncOAC | internal/cloudfront/oac_repository.go:55-66 | updates the access control that is found or creates one |
| DistRepository.Repository.DeleteOAC | internal/cloudfront/oac_repository.go:68-87 | deletes the access control with the id if there is one and deletion is enabled |
| DistRepository.Repository.SyncOACs | internal/cloudfront/repository.go:313-323 | replaces each element of the slice by its synced form in place, up to the first failure |
| DistRepository.Repository.DeleteOACs | internal/cloudfront/repository.go:333-340 | deletes in order up to the first failure |
| DistRepository.Repository.OACs | internal/cloudfront/distribution.go:82-90 | the access controls of the bucket origins, in order |
| DistRepository.Repository.Obsolete | internal/cloudfront/repository.go:342-370 | the access controls of observed origins that are no longer desired |
| DistRepository.Repository.AttachOACs | internal/cloudfront/repository.go:146-152 | writes the id of the last synced access control of its host into each origin |
| DistRepository.Repository.Sync | internal/cloudfront/repository.go:134-178 | reads, synchronises access controls, updates, deletes obsolete ones and tags, stopping at the first failing call |
| DistRepository.Repository.Create | internal/cloudfront/repository.go:113-132 | creates and then synchronises |
| DistRepository.Repository.Delete | internal/cloudfront/repository.go:180-212 | disables, waits, deletes, then deletes the access controls; succeeds if there is nothing to delete |
| DistRepository.Repository.AllOf | internal/cloudfront/repository.go:325-331 | the access controls of all origins that have one |
| AccessControlSafety.WrittenOriginsCarry | internal/cloudfront/repository.go:134-178 | every bucket origin is written with the access control named after it, every other origin with none |
| AccessControlSafety.BuiltOriginsAskForControls | internal/cloudfront/aws_models.go:121-161 | before access controls are attached, exactly the bucket origins ask for one, with no id yet |
| AccessControlSafety.SyncOneIsAsDesired | internal/cloudfront/oac_repository.go:55-66 | what is found by id or name gets the desired name, or else there is a new record; all others stay |
| AccessControlSafety.SyncedOriginsAreControlled | internal/cloudfront/repository.go:134-178 | after success the same holds of what CloudFront has, and the access controls exist |
| AccessControlSafety.NothingIsDeletedBeforeTheUpdate | internal/cloudfront/repository.go:164-241 | an access control disappears only if the new configuration is in place; CloudFront refusing to delete one in use, it is not referenced there |
| AccessControlSafety.ReferencedIffNameShared | internal/cloudfront/oac.go:55-66 | the new configuration references an obsolete access control if and only if a staying bucket host has its name |
| AccessControlSafety.SyncSucceedsIffNothingNeededIsDeleted | internal/cloudfront/repository.go:134-241 | if no call fails, Sync succeeds if and only if no obsolete access control is named by a staying bucket or used by another group |
| AccessControlSafety.DeleteAllSucceeds | internal/cloudfront/repository.go:333-340 | deletions succeed exactly if none of the access controls is in use |
| AccessControlSafety.DeletedDistLeavesNoControls | internal/cloudfront/repository.go:180-212 | after a successful deletion the distribution is gone, and every access control that it used |
| AccessControlSafety.DeleteIsIdempotent | internal/cloudfront/repository.go:180-212 | deleting a distribution that is gone already succeeds and changes nothing |
| AccessControlSafety.DeletionTurnsOffFirst | internal/cloudfront/repository.go:180-212 | what a deletion leaves of the distribution is nothing or all of it, switched off unless the configuration could not be read or written; other distributions stay |
| AccessControlSafety.SyncIsIdempotent | internal/cloudfront/repository.go:134-178 | a second Sync succeeds, returns the same and leaves CloudFront as it is |
| AccessControlSafety.SyncSettlesInAnyOrder | internal/cloudfront/repository.go:134-178 | after a successful Sync, one of the same distribution with its origins in any order succeeds and changes nothing but that order |
| AccessControlSafety.CompiledIsWellBuilt | internal/cloudfront/origin.go:199-255 | compiled distributions meet the hypotheses of these results |
| AccessControlRuns.OwnOverRuns | internal/cloudfront/repository.go:113-241 | over any run, with whatever calls failing, every origin that has an access control has the one named after its group and host |
| AccessControlRuns.DesiredIsWellBuilt | internal/k8s/user_origin.go:113-132 | what is desired from parsed Ingresses meets the hypotheses of the results on single synchronisations |
| Reconciler.ExtractedID | internal/cloudfront/distribution.go:188-200 | the id of a distribution is what its ARN has between the first two slashes, or after the only one; an ARN without a slash has none |
| Reconciler.Service.constructor | internal/cloudfront/service.go:49-58 | starts from a given world |
| Reconciler.Service.FetchDesiredIngresses | internal/cloudfront/service.go:170-184 | the desired Ingresses of the group, which DesiredMembers and DesiredOfConcat characterize |
| Reconciler.Service.DesiredState | internal/cloudfront/service.go:146-168 | a desired distribution or the conflict; a failed call only where one is made |
| Reconciler.Service.SyncDistribution | internal/cloudfront/service.go:303-366 | update, create, delete or nothing, with the zero distribution after a failure |
| Reconciler.Service.GetDeletions | internal/cloudfront/service.go:425-433 | the current names that are not desired, in order |
| Reconciler.Service.NewAliases | internal/cloudfront/service.go:407-423 | to upsert are the distribution's domains; to delete are the tracked names that are not among them, none if deletion is disabled |
| Reconciler.Service.SyncDistAliases | internal/cloudfront/service.go:387-405 | both DNS calls run, each noted only if it succeeds |
| Reconciler.Service.ReconcileFinalizer | internal/cloudfront/service.go:435-442 | sets or removes one finalizer, or nothing if the call fails |
| Reconciler.Service.UpsertCDNStatus | internal/cloudfront/service.go:368-376 | creates if needed and then writes the status |
| Reconciler.Service.FetchOrGenerateCDNStatus | internal/cloudfront/service.go:186-213 | the stored status, or a new one with every Ingress failed |
| Reconciler.Service.Reconcile | internal/cloudfront/service.go:62-120 | every reconciliation, with any calls failing, is a step of the state machine |
| Reconciler.Service.Apply | internal/cloudfront/service.go:94-119 | distribution, aliases, finalizer and status in this order, each failure remembered |
| Reconciler.Service.Conclude | internal/cloudfront/service.go:104-119 | the finalizer goes only after full success of a leaving Ingress, the status only after success with nothing left |
| DesiredState.DesiredOfOne | internal/k8s/ingress_fetcher_v1.go:45-60 | an Ingress that is live in the group comes first, with everything that its fields say, and then its user-supplied origins; any other contributes nothing |
| DesiredState.DesiredOfConcat | internal/k8s/ingress_fetcher_v1.go:45-60 | contributions come in the order of the list, each as often as its Ingress |
| DesiredState.DesiredMembers | internal/k8s/ingress_fetcher_v1.go:39-61 | something is desired if and only if a live Ingress of the group asks for it, itself or by a user-supplied origin |
| Admission.RefusedCreationWritesNothing | internal/cloudfront/service.go:122-132 | where creation is blocked and the Ingress not exempt, the first reconciliation of a group fails and writes nothing |
| Admission.CreatesIffItMay | internal/config/config.go:135-153 | if it reads what it needs and the creation call goes through, the first reconciliation creates the distribution if and only if it may and the Ingresses do not conflict |
| Admission.AppliesUnlessRefused | internal/cloudfront/service.go:80-94 | a reconciliation that reads what it needs applies the desired state unless the Ingresses conflict or it may not create; otherwise it writes nothing |
| Admission.ReadsWhatItNeeds | internal/cloudfront/service.go:248-279 | the observed configuration has to be readable exactly where no live Ingress names a web ACL and the distribution exists; without what it needs a reconciliation fails and writes nothing |
| Admission.GrouplessIsReleased | internal/cloudfront/service.go:74-78 | an Ingress with a finalizer but no group loses the finalizer and nothing else changes |
| StatusNotes.StepIsNoted | internal/cloudfront/service.go:310-327 | the status notes for the reconciled Ingress alone whether its distribution step succeeded, and forgets it after a deletion that succeeded |
| StatusNotes.FirstStepIsNoted | internal/cloudfront/service.go:186-213 | a new status lists exactly the live Ingresses of the group, all others than the reconciled one as failed |
| StatusNotes.StatusLossIsEarned | internal/cloudfront/service.go:113-117 | a status disappears only in a reconciliation of its group that succeeds and finds nothing desired |
| StatusNotes.StatusTellsWhatIsThere | internal/cloudfront/service.go:320-324 | after a success the status has the id, ARN, address and aliases that CloudFront has |
| StatusNotes.FailedStatusUpdate | internal/cloudfront/service.go:368-376 | if the status cannot be updated the reconciliation fails and tracks nothing new, and a group without a status gets an empty one |
| StatusNotes.FlagAfterSync | internal/cloudfront/service.go:387-405 | a failed alias step leaves the DNS section flagged, and no alias step takes the flag back while the section stays |
| StatusNotes.FlagStaysUp | internal/cloudfront/service.go:387-405 | over any run a flagged DNS section stays flagged as long as it is there |
| AliasBookkeeping.SyncKeepsTrackedHeld | internal/cloudfront/service.go:387-405 | whichever calls fail, every name tracked afterwards has the class's value and an A record |
| AliasBookkeeping.SyncRespectsOthers | internal/cloudfront/service.go:387-423 | names of other classes, and of this class outside the group, stay held |
| AliasBookkeeping.TrackedAfterSync | internal/cloudfront/service.go:387-423 | the tracked names afterwards, for each combination of failing calls |
| AliasBookkeeping.TrackedConverges | internal/cloudfront/service.go:387-433 | with deletion enabled, success makes the tracked names the normalized domains |
| AliasBookkeeping.TrackedOnlyGrowsWithoutDeletion | internal/cloudfront/service.go:415-417 | with deletion disabled the tracked names become the union and never shrink |
| AliasBookkeeping.SecondSyncChangesNothing | internal/cloudfront/service.go:387-433 | a second synchronisation deletes nothing and leaves zone and status alone |
| AliasTargets.SyncKeepsPointing | internal/cloudfront/service.go:387-423 | whichever DNS calls fail, the names tracked afterwards point at the address where they did |
| AliasTargets.SuccessPointsNames | internal/cloudfront/service.go:407-423 | after a reported success every desired name has A, and for IPv6 AAAA, pointing at the address of the group's distribution, and a TXT set that names the class |
| AliasTargets.SuccessPointsTracked | internal/cloudfront/service.go:407-423 | with deletion enabled, after a reported success all tracked names point there |
| AliasTargets.TrackedNamesPoint | internal/cloudfront/service.go:387-423 | over any planned run in which the distribution stays, tracked names that point at it keep doing so |
| RoutingPolicies.PolicedStopsCall | internal/route53/repository.go:235-263 | a call that names an A, AAAA or TXT set with a routing policy fails and changes nothing |
| RoutingPolicies.PolicedStays | internal/route53/repository.go:63-129 | no call changes a record set with a routing policy |
| RoutingPolicies.PolicedForGood | internal/route53/repository.go:235-263 | over any run by any classes, a record set with a routing policy stays as it is |
| DeletionDisabled.NothingDisappears | internal/cloudfront/service.go:353-423 | with deletion disabled, over any run by any classes, whatever fails, distributions, access controls and record sets stay there |
| ReconcilerRuns.SyncDistChange | internal/cloudfront/service.go:303-366 | only the group's distribution changes, its web ACL only to the desired one |
| ReconcilerRuns.DesiredACL | internal/cloudfront/service.go:248-279 | the desired web ACL is the single annotated ARN, or else the one in place |
| ReconcilerRuns.WebACLIsNeverRemoved | README.md:162-176 | over any run each step keeps a distribution's web ACL or replaces it by an annotated ARN; while the distribution stays, it has one |
| ReconcilerRuns.ConflictingACLsWriteNothing | internal/k8s/ingress.go:188-202 | conflicting ARNs in a group stop its reconciliations before any write |
| ReconcilerRuns.HeldAfterStep | internal/cloudfront/service.go:62-120 | one reconciliation of any class keeps all groups' tracked names held |
| ReconcilerRuns.TrackedNamesAreHeld | internal/cloudfront/service.go:387-423 | over any run by any classes, every tracked name has its group's ownership value and an A record |
| ReconcilerRuns.LeavingIsNotDesired | internal/cloudfront/service.go:178-184 | the desired Ingresses are those computed without an Ingress that is being deleted |
| ReconcilerRuns.FinalizerLossIsEarned | internal/cloudfront/service.go:96-107 | an Ingress of a group loses its finalizer only when leaving, and after the distribution step and both DNS steps succeeded |
| ReconcilerRuns.StepTouchesOneIngress | internal/cloudfront/service.go:435-442 | a reconciliation changes no other Ingress, and of its own only the finalizer |
| ReconcilerRuns.FinalizerLossOverRuns | internal/cloudfront/service.go:62-120 | over any run in which users leave finalizers alone, a lost finalizer was lost in an earned step |
| ReconcilerRuns.LastReleaseCleansUp | internal/cloudfront/service.go:353-423 | the last released Ingress leaves no distribution, and no requested address or owner at a tracked name |
| ReconcilerConvergence.SuccessTracksDesiredNames | internal/cloudfront/service.go:62-120 | a reported success leaves exactly the group's normalized domains tracked; with deletion disabled their union with the old ones, but nothing if the group is empty |
| ReconcilerConvergence.EmptiedGroupForgets | internal/cloudfront/service.go:353-423 | with deletion disabled, success in an emptied group keeps zone and CloudFront as they are and deletes the status |
| ReconcilerConvergence.DesiredAgain | internal/cloudfront/service.go:146-168 | once the distribution exists, the desired state can be computed as before |
| ReconcilerConvergence.DesiredInAnyOrder | internal/cloudfront/service.go:146-168 | whatever is computed then differs in the order of origins and behaviors at most |
| ReconcilerConvergence.SecondUpsert | internal/cloudfront/service.go:310-351 | synchronising what was just created or updated, with the origins in any order, leaves CloudFront as it is but for that order and the behaviors |
| ReconcilerConvergence.SecondReconciliationChangesNothing | internal/cloudfront/service.go:62-120 | after a success, every undisturbed reconciliation of this or another live Ingress of the group succeeds; the zone stays, Kubernetes changes in noting that Ingress only, CloudFront in the order of origins and in the behaviors only |
| ReconcilerConvergence.NothingToNote | internal/cloudfront/service.go:104-119 | for the same Ingress there is nothing to note, so Kubernetes stays as it is |
| ReconcilerConvergence.SecondReconciliationHappens | internal/cloudfront/service.go:62-120 | there is such a reconciliation under any circumstances |
| FailureReporting.SyncStopsAtFailure | internal/cloudfront/repository.go:134-178 | a synchronisation that gets as far as writing the configuration leaves it written; of the obsolete access controls it has deleted exactly those before the first failing call or refusal |
| FailureReporting.SuccessMeansNoFailure | internal/cloudfront/service.go:62-120 | a reported success means that none of the calls that the reconciliation makes has failed: to Kubernetes, CloudFront or Route53 |
| DeployedRouting.SuccessDeploysIngresses | internal/cloudfront/aws_models.go:35-100 | after a success the distribution is switched on and holds a compilation of the live Ingresses; IPv6, aliases, web ACL, origin hosts, timeouts and the pairs of host and pattern are exactly what their fields ask for |
| DeployedRouting.DeployedRoutingMeetsKubernetes | internal/cloudfront/service.go:62-120 | after a success CloudFront serves a request by none exactly when no path of any type matches it; one that no path of another type matches goes to the rule Kubernetes prefers if and only if it is no trailing-slash clash |
| DeployedRouting.DeployedOtherPathServes | internal/cloudfront/service_helpers.go:54-59 | after a success a path of another type has its behavior, which serves a request that it matches unless another matching one sorts at or before it |
| DeployedRouting.SecondReconciliationKeepsBehaviors | internal/cloudfront/distribution.go:62-70 | a second reconciliation writes the same behaviors in the same order if the patterns are ASCII and each comes from one path |
| DeployedFunctions.SuccessDeploysFunctions | internal/cloudfront/aws_models.go:178-229 | after a success the two function lists of every cache behavior hold exactly what the paths of live Ingresses ask for that are written as its pattern |
| ReconcilerSuccess.DeleteSucceedsIffNoneIsShared | internal/cloudfront/repository.go:180-212 | if no call fails, deleting a distribution succeeds if and only if no other group uses one of its access controls |
| ReconcilerSuccess.AliasesSucceedIff | internal/cloudfront/service.go:387-423 | if no call fails, the alias step succeeds if and only if every desired name validates and every name to delete can be erased, both judged before the step |
| ReconcilerSuccess.ReconciliationSucceedsIff | internal/cloudfront/service.go:94-119 | if no call fails, a reconciliation succeeds if and only if this holds and no access control that has to go is needed elsewhere |
| FailedUpdates.FailedUpdateDropsAliases | internal/cloudfront/service.go:329-351 | after a failed create or update whose alias step succeeds, all tracked names have lost A record and owner while AAAA records stay |
| FailedUpdates.AliasesAreKeptIff | internal/cloudfront/service.go:94-103 | tracked names that are still desired stay held if and only if the distribution step succeeds, or there are none, or the deletion of all tracked names fails |
| FailedUpdates.UpdateKeepsAliasesIff | internal/cloudfront/service.go:94-103 | if no remote call fails, an update keeps these names if and only if no needed access control would be deleted, or there are none, or not all tracked names can be erased |
| FailedUpdates.UnownedAddressBlocksUpsert | internal/route53/repository.go:215-233 | an AAAA record without an owner makes every Upsert of its name with IPv6 fail and change nothing |
| FailedUpdates.FreedNameValidatesIff | internal/route53/repository.go:215-243 | a name without A record and owner validates exactly if it asks for no AAAA record that is there |
| FailedUpdates.LostNamesCanBeUpsertedIff | internal/cloudfront/service.go:94-103 | after a failed update and its alias step, an undisturbed Upsert of lost names by any class succeeds if and only if it asks for no AAAA record that was there |
| FailedUpdates.BlockedForGood | internal/cloudfront/service.go:387-423 | with IPv6, over any run by any classes, a name with an AAAA record but no A record and no owner stays so |
| FailedUpdates.SuccessNeedsUnblockedNames | internal/cloudfront/service.go:387-423 | no reconciliation that manages aliases succeeds while its group desires such a name |
| FailedUpdates.FailedUpdateBlocksNames | internal/cloudfront/service.go:96-103 | after a failed update every tracked name with an AAAA record is blocked in this sense over every run that follows |
| SharedLabelExample.WorldIsAccepted | internal/k8s/user_origin.go:113-132 | the example's user origin has what the parser asks for, and its ARN the documented form |
| SharedLabelExample.UpdateFails | internal/cloudfront/oac.go:55-66 | a distribution of two bucket hosts with one first label cannot be updated to one of them, though no call fails |
| SharedLabelExample.SharedLabelLosesAliases | internal/cloudfront/service.go:94-103 | reconciling that group, which the code accepts, loses the A record and the owner of a name that it desires; with IPv6 the name is blocked |
| SharedLabelExample.SharedLabelBlocksForGood | internal/cloudfront/service.go:94-103 | with IPv6, over any run from there, the name stays blocked and no reconciliation that wants it succeeds |

## Left out

- Specificity.Sort: stands for Go's `sort.Sort` as an insertion sort; Go's other strategies for long slices are not part
  of this model, and Less is reflexive where Go asks for a strict order. For ASCII patterns OrderedArrangementIsUnique
  shows that every sort that orders gives the same patterns.
- Compiler.OriginBuilder.constructor: request, cache and response policies are not part of this model, because with
  several Ingresses of a host the last one wins.
- Compiler.OriginBuilder.Build: leaves out the policy loops and the origin headers, for the same reason.
- Compiler.NewOrigin: leaves out policies and headers, for the same reason.
- Compiler.DistributionBuilder.constructor: leaves out description and price class, which are plain configuration.
- Compiler.DistributionBuilder.Build: leaves out tags, logging, TLS, price class and description.
- Compiler.NewDistribution: leaves out TLS with the discovery of certificates, logging and tags.
- AliasRepository.NewAliases: leaves out the hosted zone id, since there is one zone.
- AliasRepository.FilteredListing: takes the listings to return the A, AAAA and TXT sets of the name; sets of other
  names and types that a page may hold are filtered out by name and type and are not part of this model.
- DistRepository.NewAWSDistributionConfig: leaves out the default cache behavior, policies, comment, price class, TLS and
  logging, which are plain configuration.
- DistRepository.Repository.Sync: leaves out the settings carried over from the observed configuration (caller
  reference, root object, error responses, restrictions).
- DistRepository.Repository.Create: leaves out tags.
- AccessControlSafety.NothingIsDeletedBeforeTheUpdate: that a deleted access control is not referenced rests on
  CloudFront refusing to delete one in use; ReferencedIffNameShared says when it would be referenced otherwise.
- TrackedNamesAreHeld: assumes atomic DNS calls, successful status writes and disjoint names for groups of one owner;
  without atomic calls a name can be taken over (StaleCommitTakesOver).
- RoutingMeetsKubernetes: is about wildcard-free Exact and Prefix rules; ImplementationSpecific paths are patterns
  already and have no other meaning to compare with, so RoutingBesidePatterns leaves out the requests they match.
  CloudFront allows a pattern once per distribution, so an Exact rule and a Prefix rule of one path must share their
  host.
- UpsertIsIdempotent: is about a second call with the same aliases; a changed address is an ordinary Upsert.
- DeleteUndoesUpsert: is about record sets with simple routing; weighted, geolocation and CIDR sets only make
  validation fail, and their contents are not part of this model.
- The written distribution configuration: the model has origins with read timeouts and access controls, cache
  behaviors with pattern, target and functions, web ACL, aliases, IPv6 and the enabled flag, and nothing else.
- Compiler.Configure: leaves out logging and custom tags, and takes the id of an existing distribution from CloudFront,
  where the code reads it off the ARN. That is the same for ARNs of the documented form (ExtractID); on an ARN without
  a slash the code panics.
- Parsing of annotations and of YAML, class lookup and validation of annotations: the model starts from parsed
  Ingresses, and a failing parse is a parameter.
- Listing at Route53: one hosted zone, one record set per name and type, only A, AAAA and TXT; other names in a page
  and the escaping of `*` in names are not part of this model.
- A record set of type A or AAAA without an alias target: the code dereferences a nil pointer when deleting; the model
  lets the call fail.
- Origin access control names: the MD5 digest is uninterpreted, so nothing is assumed about collisions; conditions
  name equal names instead.
- CloudFront: ETags, pagination, polling and quotas; that it refuses to delete an access control in use, or a
  distribution that is switched on, is stated as part of the remote side. There is at most one distribution per group.
- Function associations are values: that Merge works on a deep copy behind pointers is not part of this model.
- Stale caches: a reconciliation lists Ingresses as they are when it starts.
- The Synced flag that is set after the status has been written, events and error texts: nothing persists of them.
