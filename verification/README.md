# Image Factory: a verified model

Image Factory builds Talos boot assets and Installer images on request. This project models the parts of it that decide
something difficult, and proves what they promise:

- **Interleavings.** The scanner swaps its vulnerability database under a read-write lock while scans, a refresh loop,
  initialisation and shutdown run side by side. The schematic factory lets reads and writes share a flight. Version lists
  and signatures are cached behind flights. Each of these is a state with a step relation: one event is one atomic action
  of one goroutine or replica, there are arbitrarily many callers, and what is proved holds in every state of every run.
- **Protocols over a registry.** Installer indexes are staged, given evidence, signed, verified and only then tagged, by
  replicas that may stop at any step. Stored tokens live as one registry tag each, under a repository named by a hash about
  which nothing is assumed. Delegation of token authority is followed over mint chains of any length, and the cap on stored
  tokens under any number of concurrent creates.
- **Parsers and identities.** Artifact paths, token claims, registry image names, the wizard's query and schematics: what
  is printed is parsed back, and exactly which inputs that is true of. Cache keys are stated on what is hashed.
- **SPDX documents.** Merging, the cache shared by every schematic with the same extensions, and rewriting a cached
  document's identity when it is served.
- **Canonical forms.** The provenance's dependency list, the list of Talos versions, cleaned profiles.

Where the source changes state in place there is a class or a loop that does so, proved against a function or against the
step relation (`PathMethods`, `ScannerMethods`, `PublicationService`, `TokenStorage`, `SchematicMethods`, `CacheMethods`, and the classes
in `SpdxMerge`, `SpdxBundle`, `SharedBundle`, `Reidentify`, `Enhance`, `ProfileHash`, `Versions`). In those that touch shared state, what the others do
between two accesses is a list of events that the object is constructed with; it is arbitrary, so that every claim holds
for every interleaving.

`TokenRequests`, `EnhancedOptions`, `SpdxContents`, `ProfileIdentity`, `JsonText`, `WizardChoices` and `ScannerCache` state what
the operations of other modules mean, condition by condition, without naming the functions that these compute with; and the
lemmas whose names end in `Alone` say what a request yields that nobody disturbs.

## Where the code and its documentation part

Each of these has a lemma with a concrete input or run, and a lemma that says exactly when the promise is kept.

- A revoked token can still be reported valid to a request that begins after the revocation (`TokenStore.StaleAnswerHappens`);
  the comment at enterprise/tokens/manager.go:138-139 promises that it takes effect on the next request. In any reachable
  state that is possible if and only if a lookup of the token is under way that has already read it as valid
  (`TokenStaleness.StaleAnswerIff`).
- The API documents the names of artifacts (frontend/src/api/schema.d.ts:329-345), and exactly one checksum or signature
  suffix. Two suffixes are accepted, because the suffix is split off twice, and so are installer names whose `-installer-`
  stands at another dash, as in `metal-amd64-installer-secureboot.tar`, and names of a platform that is empty
  (`PathLanguage.TwoSidecarsExample`, `PathLanguage.SplitSecureBootExample`). Nothing else is
  (`PathLanguage.LanguageIff`, `PathLanguage.ResolveAcceptsIff`). Of the documented forms
  exactly those are rejected whose platform is named like a keyword that begins another form, such as `kernel-amd64.iso`
  (`PathLanguage.ShapesAcceptedIff`).
- The bundle that is shared under an extension list's hash is not always what each of its schematics would have built: a
  build that could not extract an extension skips it and stores what it has (`SharedBundle.FailedExtractionExample`). It is
  complete for all contents if and only if no extension that is available was missed (`SharedBundle.StoredBundleIsCompleteIff`).
- Only the full name and namespace of a served bundle are meant to be substituted (enterprise/spdx/builder/builder.go:260-262).
  As the substitutions follow each other, a new name can complete a namespace that was not there: under an external URL
  whose query ends in `talos-` and the first digit of the requested id, serving changes a place that is in no occurrence of
  either (`Reidentify.QueryExample`). For every content, only occurrences change if and only if the namespace contains the
  stored name, or no overlap of the new name that the stored one does not share does harm
  (`Reidentify.ServingChangesOnlyIdentityIff`); under an external URL without a query that does not contain the new name,
  and whose scheme has no digit 4, there is no overlap at all (`Reidentify.NamesAreHarmless`).
- A served bundle is meant to have the requested namespace. In the stored JSON `<`, `>` and `&` are escaped, and the
  namespace that is looked for is not: under an external URL with `?a=1&b=2` the cached namespace is served
  (`Reidentify.AmpersandExample`). The requested one is served if and only if the namespace has no such character
  (`Reidentify.ServedIsBuiltDirectlyIff`).
- The cap on stored tokens is exceeded by creates whose listings overlap, even if no two of them are ever between their
  comparison and their push (`TokenCap.OvershootHappens`). It holds in every run if and only if it admits nothing or creates
  never overlap (`TokenCap.CapHoldsIff`); otherwise it is exceeded by as many as overlap, less one (`TokenCap.OvershootReached`).
- The key of an Installer build's flight does not determine the request when a version tag contains further dashes
  (`Publication.SharedFlightExample`, `Publication.KeysAgreeIff`).
- A Put of a schematic that joins a read of undecodable data reports that read's error although the id is stored
  (`SchematicFactory.PutReportsDecodingError`); that can happen if and only if the id is stored beforehand and what is stored
  does not decode (`SchematicFactory.DecodingErrorIff`).
- Prefixing by source keeps SPDX identifiers unique for all contents only if the source names are prefix-free and do not
  begin the synthetic root's identifier (`SpdxMerge.UniqueForAllContentsIff`). The former name `siderolabs/talos-vmtoolsd`,
  which is still accepted, is filed under a source that Talos's own begins (`SharedBundle.FormerNameIsNotSeparate`).
- A wizard restored from a schematic loses the bootloader choice `none`, and overlay options that are an empty mapping
  (`Wizard.NoneIsLost`, `Wizard.EmptyOptionsAreLost`, `Wizard.RestoredBuildsTheSame`).
- Cleaning a profile is meant to remove the temporary directory from its identity, and leaves it in the paths of overlay
  images (`ProfileHash.OverlayPathExample`, `ProfileHash.DirectoryIgnoredIff`).

## Model

| member | source | states |
|---|---|---|
| PathParser.ParseSound | internal/profile/profile.go:82-248 | every accepted path yields amd64 or arm64 and a profile that the documented grammar can express |
| PathParser.DiskOptionsAre | internal/profile/profile.go:183-245 | disk size and format options of a platform, those it has no own ones for, and those of qcow2 |
| PathParser.ParsePrint | frontend/src/api/schema.d.ts:329-345 | every expressible profile, printed in its documented form with any spelling of its architecture, parses back to itself |
| PathParser.NormalForm | internal/profile/profile.go:82-248 | printing what an accepted path parses to and parsing that again changes nothing |
| PathParser.ImageOfParse | internal/profile/profile.go:82-248 | a profile is the value of some path if and only if it is expressible |
| PathParser.BareInstallerPrinted | internal/profile/profile.go:149-167 | a bare installer path is the metal installer of its architecture and secure boot choice |
| PathParser.InstallerProfileIsParsedPath | internal/profile/profile.go:250-268 | the registry's installer profile is what that platform's installer path parses to, exactly for platforms without a dash that are no leading keyword, or digital-ocean |
| PathParser.ImageNameRoundTrip | internal/registry/service.go:152-174 | every platform and secure boot choice has a registry image name that is read back as that choice |
| PathParser.ArtifactsHaveNoSidecar | internal/profile/artifact_path.go:29-49 | no accepted artifact path ends in a checksum or signature suffix |
| PathLanguage.LanguageIff | internal/profile/profile.go:82-248 | a path is accepted if and only if it is one of the documented forms of a platform that is not named like a leading keyword, such a form of an empty platform, or an installer split at another dash |
| PathLanguage.ShapesAcceptedIff | internal/profile/profile.go:82-248 | of the documented forms, with any platform, exactly those are accepted whose platform is not named like a keyword that begins another form |
| PathLanguage.OddIsUndocumented | frontend/src/api/schema.d.ts:329-345 | those odd forms are not documented forms under any other reading |
| PathLanguage.SplitSecureBootExample | internal/profile/profile.go:169-181 | a concrete undocumented installer name that is accepted |
| PathLanguage.ResolveAcceptsIff | internal/asset/image_service.go:163-187 | the image service accepts the documented names with at most one sidecar, and beyond those exactly the odd forms and the artifacts with a second sidecar |
| PathLanguage.ResolvesOnce | internal/profile/artifact_path.go:29-49 | an artifact with one sidecar or none is resolved to the artifact and that sidecar |
| PathLanguage.TwoSidecarsAccepted | internal/profile/artifact_path.go:44-49 | a second sidecar on any artifact is accepted, and the outer one decides what is served of that artifact |
| PathLanguage.TwoSidecarsExample | frontend/src/api/schema.d.ts:345 | a concrete name with two sidecars that is accepted although it is not documented |
| PathMethods.SetArch | internal/profile/profile.go:65-77 | sets the architecture named, or leaves the profile alone and reports the text that names none |
| PathMethods.SetPlatformArch | internal/profile/profile.go:43-63 | sets platform, architecture and secure boot as the value-level parser says, or reports its error |
| PathMethods.SetDiskImage | internal/profile/profile.go:183-245 | cuts compression and disk format from the end and fills the image options as the value-level parser says |
| PathMethods.ParseFromPath | internal/profile/profile.go:82-248 | the field-by-field parser yields exactly the value-level parse, error texts included |
| Scanner.RunKeepsInv | enterprise/scanner/builder/builder.go:214-585 | locking order, ownership of handles, readiness, generations and freshness hold in every state of every run |
| Scanner.NoScanOnClosedDB | enterprise/scanner/builder/builder.go:573-585 | no scan runs against a closed database, and at most one handle is open in any state |
| Scanner.StopReleasesHandles | enterprise/scanner/builder/builder.go:385-402 | from the moment Stop returns no handle is open, and none is opened again |
| Scanner.OlderDocumentsWereScannedBeforeTheLock | enterprise/scanner/builder/builder.go:279-282 | a document of another generation than the installed one that is cached, held or served comes from a scan that had returned before the refresh took the write lock |
| Scanner.ServedIsOfItsKey | enterprise/scanner/builder/builder.go:435-477 | a document that is cached under a key, held by a flight for it, or served to a caller that asked for it comes from a scan for that key |
| Scanner.ServedAlone | enterprise/scanner/builder/builder.go:411-477 | in any reachable state with a scanner and no refresh, a caller nobody disturbs is served the cached document, or else that of a scan made for it against the installed database, which is then cached and all else in the cache is left |
| Scanner.StartedAlone | enterprise/scanner/builder/builder.go:214-243 | initialisation that nobody disturbs installs the database it loads, or leaves the scanner unready when it fails |
| ScannerCache.ClearedForGood | enterprise/scanner/builder/builder.go:279-285 | in every run, what is cached or held by a flight after a refresh has cleared the cache was scanned since, or is the result of a scan that had returned by then; nothing comes back that had only been cached |
| Scanner.ScannerReadsTheUpdate | enterprise/scanner/builder/builder.go:256-276 | the published scanner reads at least what its refresh had installed on disk, because the old handle is closed first |
| Scanner.RefusedOnlyForCause | enterprise/scanner/builder/builder.go:424-433 | a scan request is refused as not ready if and only if no database was ever installed, the last refresh to close it failed to reopen it, or Stop has returned |
| ScannerMethods.LockKeepsDB | enterprise/scanner/builder/builder.go:245-287 | while the refresh holds the write lock nobody else changes the database |
| ScannerMethods.Builder.Refresh | enterprise/scanner/builder/builder.go:245-287 | a refresh succeeds if and only if the update and the reopening do, and has then installed a database at least as new as the update and cleared the cache, whatever runs meanwhile; one that fails leaves the loop retrying; nothing but the lock makes it wait |
| ScannerMethods.Builder.Stop | enterprise/scanner/builder/builder.go:385-402 | when Stop returns it holds no handle, whatever ran meanwhile, and it waits only for initialisation, the loop or the lock |
| ScannerMethods.Builder.Build | enterprise/scanner/builder/builder.go:411-477 | the document a request is served is of a scan for its own key, and of the installed generation or scanned before its refresh took the lock; it is refused for want of a scanner only if at some instant of the call there was cause; undisturbed, a cached document is what it gets |
| Publication.RunKeepsInv | internal/registry/publication.go:70-113 | what each build has established at each step, and that registry and history agree, over every run of every number of replicas |
| Publication.TaggedIsSigned | internal/registry/publication.go:98-110 | a version tag points at an index that is staged and signed and whose signature was verified |
| Publication.TaggedHasEvidence | internal/registry/service.go:461-466 | when every replica has an evidence publisher, a tag of a version from 1.13.0 on points at an index whose evidence was published and verified |
| Publication.SignedHasEvidence | internal/registry/publication.go:86-100 | a signed index was signed for some build in its repository, and the evidence that build needed had been published and verified |
| Publication.EvidenceFrom113On | internal/registry/publication.go:86-96 | an index signed only for versions from 1.13.0 on, by replicas with a publisher, has verified evidence |
| Publication.AnswerWasVerified | internal/registry/service.go:282-345 | the digest answered for a version tag was verified and promoted for that very request, or for one with the same flight key |
| Publication.AnswerIsOwn | internal/registry/service.go:282-345 | between version tags with at most one dash it was verified and promoted for that very request |
| PublicationAlone.BuiltAlone | internal/registry/service.go:282-345 | in any reachable state, a request for a version that is not tagged, nobody disturbing it, is answered with the index that was built for it, and its own tag then points there |
| Publication.KeysAgreeIff | internal/registry/service.go:319 | two requests share a flight if and only if they are equal or the version tag of one contains the schematic and the version tag of the other |
| Publication.SharedFlightExample | internal/registry/service.go:319 | for any two schematic ids of 64 hexadecimal digits, two requests for different repositories with the same flight key |
| PublicationService.Replica.PublishInstallerIndex | internal/registry/publication.go:70-113 | it fails at exactly the first step that fails, and moves the tag to the staged digest if and only if none does |
| PublicationService.FailsAtFirst | internal/registry/publication.go:70-113 | a publication fails at the first of its steps that fails, those for evidence only if it is needed |
| PublicationService.Replica.VerifyPublished | internal/registry/publication.go:115-138 | reading back succeeds if and only if some attempt in time does |
| PublicationService.Replica.Manifest | internal/registry/service.go:256-346 | unknown schematics and image names are refused, latest is the newest eligible version that the registry lists, other references go through as they are, and a digest that is answered was promoted for the resolved tag or for a request with its flight key; undisturbed, a tag whose signature verifies is answered with its own digest |
| Versions.CompareIsPreorder | internal/artifacts/versions.go:88 | precedence is total, and equal for versions that differ in build metadata at most |
| Versions.PrecedenceIff | internal/artifacts/versions.go:88 | a version precedes another if and only if it does by the numbers in order, and for equal ones by the pre-release: none last, identifiers in order, numeric before textual, a prefix first |
| Versions.EvidenceFrom113 | internal/registry/publication.go:28-32 | evidence is for 1.13.0 and later, and not for pre-releases of 1.13.0 |
| Versions.NewestIsEnough | internal/artifacts/versions.go:51-67 | which of several newest candidates is taken does not change the list |
| Versions.KeptIff | internal/artifacts/versions.go:55-87 | a version is kept if and only if it does not precede the minimum, is not broken, and is a release or the numbered alpha, beta or candidate of the newest minor release |
| Versions.ParsedCounts | internal/artifacts/versions.go:41-48 | tags that are no versions are ignored, and every other one counts as often as it was found |
| Versions.MaxVersion | internal/artifacts/versions.go:52 | the maximum is a candidate that none exceeds |
| Versions.Manager.FetchTalosVersions | internal/artifacts/versions.go:27-95 | the stored list is sorted by precedence and holds exactly the candidates at or above the minimum, not broken, and allowed by the pre-release rule, each as often as found; when it fails or panics the list stays |
| Versions.PanicsIff | internal/artifacts/versions.go:35-52 | fetching panics if and only if the registry answers and none of its tags is a version |
| Versions.Manager.GetTalosVersions | internal/artifacts/manager.go:259-286 | the caller gets a list of its own: the stored one while it is younger than the interval, and else one of what is found now; it fails if and only if a stale list cannot be fetched anew |
| Versions.ResolveLatest | internal/registry/service.go:348-370 | latest resolves if and only if the registry lists a stable version at or above the minimum that is not broken, and then to one that none of these exceeds |
| Versions.LatestIsOfCandidates | internal/artifacts/versions.go:55-87 | the latest of the list is the latest eligible candidate, although pre-releases are filtered by another rule |
| Versions.LatestExistsIff | internal/registry/service.go:348-370 | there is a latest one if and only if some candidate is eligible |
| TokenStore.RunKeepsInv | enterprise/tokens/storage.go:60-68 | in every run the registry holds exactly the created tokens, each under its own tag, tombstoned exactly if revoked |
| TokenStore.ValidIsLedger | enterprise/tokens/storage.go:141-158 | a token is valid if and only if it was created for that organisation, was not revoked and has not expired, for any hash |
| TokenStore.ListAgreesWithValid | enterprise/tokens/storage.go:160-199 | at one state and clock an id is listed for an organisation if and only if it is valid for it |
| TokenStore.NoLostUpdate | enterprise/tokens/storage.go:60-68 | what was created stays created with its owner and record, what was revoked stays revoked |
| TokenStore.NeverValidAgain | enterprise/tokens/storage.go:119-139 | a token that was created and is not valid is never valid later |
| TokenStore.LookupKeyInjective | enterprise/tokens/manager.go:146 | tokens share a lookup only if organisation and id are equal, as ids contain no NUL |
| TokenStore.AnswerWasTrue | enterprise/tokens/manager.go:134-162 | an answer was the truth at some instant of the flight that was joined |
| TokenStore.StaleOnlyByJoining | enterprise/tokens/manager.go:138-148 | a token invalid when its caller asked is called valid only if the joined flight had read before |
| TokenStaleness.StaleAnswerIff | enterprise/tokens/manager.go:134-162 | in any reachable state, a caller that asks now about a token that is no longer valid can be told that it is if and only if a lookup of it is under way that has already read it as valid |
| TokenStore.StaleAnswerHappens | enterprise/tokens/manager.go:138-139 | a run in which a caller that asks after a revocation is told the token is valid |
| TokenStorage.Storage.Create | enterprise/tokens/storage.go:110-117 | afterwards the record is stored for its organisation, and valid unless expired, whatever others did meanwhile |
| TokenStorage.Storage.Revoke | enterprise/tokens/storage.go:119-139 | afterwards the token is revoked and invalid, or at some instant of the call there was none to revoke |
| TokenStorage.Storage.Lookup | enterprise/tokens/manager.go:134-162 | an answer was true at some instant of the joined lookup, and of the call itself if no lookup was under way when it began |
| TokenStorage.Storage.ReadRecords | enterprise/tokens/storage.go:160-199 | each listed token was live at some instant of the call, none that was live at both ends is missing, ids are unique, and the list is in order of creation |
| TokenStorage.CompareRecordsIsPreorder | enterprise/tokens/storage.go:190-196 | the order by creation time and id ranks every two records |
| TokenStorage.CompareRecordsIff | enterprise/tokens/storage.go:190-196 | a record comes before another if and only if it was created earlier, or at the same time and its id is before |
| TokenCap.LiveAndPendingBounded | enterprise/tokens/frontend_listcreate.go:347-372 | live tokens and creates about to push never exceed the limit by more than the number of creates beside one, minus itself |
| TokenCap.OvershootBound | enterprise/tokens/frontend_listcreate.go:347-360 | with at most k creates between listing and push at once, live tokens never exceed max + k - 1 |
| TokenCap.OvershootReached | enterprise/tokens/frontend_listcreate.go:347-360 | for every limit and every k some run with at most k such creates at once ends with max + k - 1 live tokens |
| TokenCap.CapHoldsIff | enterprise/tokens/frontend_listcreate.go:347-360 | the cap holds in every state of every run if and only if the limit is zero or at most one create is under way at once |
| TokenCap.ExactWhenSequential | enterprise/tokens/frontend_listcreate.go:347-360 | creates that never overlap keep the cap exactly |
| TokenCap.OvershootHappens | enterprise/tokens/frontend_listcreate.go:353-354 | a run with a limit of one, never more than one create between comparison and push, and two live tokens |
| Scopes.OnlyIssueMints | internal/apitoken/scope.go:52-54 | a set of scopes opens the minting route if and only if token:issue is in it |
| Scopes.RouteTableIff | internal/apitoken/scope.go:30-61 | a scope opens a request if and only if some row of the documented table of methods and paths does |
| Scopes.CoveringAllows | internal/apitoken/scope.go:195-221 | whoever covers a set of scopes may make every request it allows |
| Scopes.RoutesAreDisjoint | internal/apitoken/scope.go:30-61 | no request is opened by two scopes, but for the registry ping by image:read and source:pull |
| Scopes.ParseScopes | internal/apitoken/apitoken.go:542-563 | the claim's words without repetitions in order, or the first unknown one, or that there is none |
| Scopes.MeansIsFunctional | internal/apitoken/apitoken.go:542-563 | a claim has one meaning |
| Scopes.DedupKeepsOrder | internal/apitoken/apitoken.go:549-560 | scopes keep the order of their first occurrence |
| Scopes.ClaimRoundTrip | internal/apitoken/apitoken.go:565-568 | parsing formatted scopes gives them back without repetitions |
| Delegation.VerifyRecovers | internal/apitoken/apitoken.go:377-515 | verification recovers what was issued, scopes deduplicated, if and only if the time is between issue and expiry give or take 30 seconds |
| TokenRequests.IssuesIff | internal/apitoken/apitoken.go:377-446 | exactly when a token is issued: for somebody, with known scopes and at least one, with the scope to issue if it may delegate, never stored if it may act for anyone, and for a lifetime that is granted |
| TokenRequests.VerifiesIff | internal/apitoken/apitoken.go:448-515 | for every token: it verifies if and only if a key of the issuer signed it, it names the issuer, it is within its times and the leeway, no claim is missing, its scopes are known, and it has the scope to issue if it may delegate; and what it is read as |
| TokenRequests.DecodesIff | enterprise/tokens/frontend_listcreate.go:236-314 | a create request is understood if and only if it asks for scopes by profile or by name and not both, is named if stored, has a positive lifetime if any, and a subject of one line of at most 256 bytes without blanks if any; and what it is taken to ask for |
| TokenRequests.ProfilesAre | internal/apitoken/scope.go:63-150 | which profiles hold each scope, and that a profile can pass on what it holds if it may issue tokens, and nothing otherwise |
| TokenRequests.IdentityIff | enterprise/tokens/frontend_listcreate.go:195-203 | a subject is accepted if and only if it is not empty, has at most 256 bytes of UTF-8, and neither a blank nor a control character |
| Delegation.LifetimeWithinBounds | internal/apitoken/apitoken.go:53-65 | a lifetime is refused if and only if its policy is not configured or it is asked for outside the bounds; the one granted is the one asked for or the default, and a token expires within the bounds after it was issued |
| Delegation.DecodedScopes | enterprise/tokens/frontend_listcreate.go:236-287 | an accepted create request asks for known scopes without repetitions, and for token:issue whenever it asks for a ceiling |
| Delegation.ReadCreateBody | enterprise/tokens/frontend_listcreate.go:236-314 | the checks made one after the other accept and yield what the value-level decoder does |
| Delegation.OnlyLifetimeCanFail | enterprise/tokens/frontend_listcreate.go:362-372 | once a request decodes, issuing it fails if and only if its lifetime is out of range |
| Delegation.CreateAnswers | enterprise/tokens/frontend_listcreate.go:316-372 | for every caller, with a token or without, each answer of a create request if and only if its cause is there: malformed, more than the caller may grant or for another than it may act for, at the cap, lifetime out of bounds, or else the token that was asked for |
| Delegation.OthersOnlyByDelegation | enterprise/tokens/frontend_listcreate.go:337-360 | whatever is asked for, the token created is for the authenticated identity unless the caller holds a token for anyone; it cannot itself mint for anyone, and none is stored at the cap |
| Delegation.NoTokenNoCeiling | enterprise/tokens/frontend_listcreate.go:322-345 | an identity without a token is answered exactly as one whose token has every scope in its ceiling and may act for nobody else |
| Delegation.ChildIsAsRequested | enterprise/tokens/frontend_listcreate.go:316-364 | a minted token verifies as exactly what was asked for, for the caller unless it may mint for anyone, never with that authority itself, and within the caller's ceiling |
| Delegation.Attenuation | enterprise/tokens/frontend_listcreate.go:324-345 | along any chain of mints scopes and ceiling lie within every ancestor's ceiling, only the root may act for others, and the subject changes at most directly under it |
| Delegation.DescendantsReachNoFurther | internal/apitoken/scope.go:195-221 | every request a descendant can make is one each ancestor's ceiling allows |
| Delegation.NoCeilingNoChildren | enterprise/tokens/frontend_listcreate.go:326-331 | a token without a ceiling has no descendants |
| Flights.JoinFits | internal/schematic/schematic.go:118-120 | joining yields the one running flight of the key, or starts it |
| Flights.AtMostOnePerKey | internal/schematic/schematic.go:118-120 | no two functions run for one key in a group whose running flights are its active ones, as those of every run are |
| SchematicFactory.RunKeepsInv | internal/schematic/schematic.go:83-167 | what each flight's result means, and what each caller was told, in every run of Puts and Gets that share flights |
| SchematicFactory.PutMeansStored | internal/schematic/schematic.go:83-138 | Put succeeds only when storage holds the id, and never reports another's failed read |
| SchematicFactory.GetMeansStored | internal/schematic/schematic.go:140-167 | Get returns a schematic with the requested id that storage holds, even out of a Put's flight |
| SchematicFactory.RetriesIff | internal/schematic/schematic.go:122-136 | a Put tries again if and only if it had joined a read that failed otherwise than by cancellation |
| SchematicFactory.PutReportsDecodingError | internal/schematic/schematic.go:132-136 | for any id that is stored with undecodable data, a run in which a Put of it reports the decoding error of the read it joined |
| SchematicFactory.DecodingErrorIff | internal/schematic/schematic.go:83-167 | some run from a given storage has a Put report a decoding error if and only if its id is stored there and what is stored does not decode |
| SchematicFactory.OneFlightPerId | internal/schematic/schematic.go:118-120 | in every state of every run no two functions run for one id |
| SchematicFactory.StorageGrows | internal/schematic/schematic.go:106-108 | what is stored stays stored |
| SchematicFactory.PutAlone | internal/schematic/schematic.go:83-138 | a Put that nobody disturbs stores its schematic under its id if it is not there, writes nothing if it is, and reports no error |
| SchematicFactory.PutFailsAlone | internal/schematic/schematic.go:97-137 | a Put that nobody disturbs, finds nothing, and cannot encode or write its schematic reports just that and stores nothing |
| SchematicFactory.GetAlone | internal/schematic/schematic.go:140-167 | a Get that nobody disturbs yields what is stored, decoded, and writes nothing |
| SchematicMethods.Factory.Put | internal/schematic/schematic.go:117-137 | the retry loop ends without an error only when the id is stored, and never with another's read error |
| SchematicMethods.Factory.Get | internal/schematic/schematic.go:140-167 | a schematic that is returned has the requested id, which is stored |
| VersionCache.GetReturnsFetched | internal/cache/single_flight.go:34-73 | a Get that succeeds returns what a completed fetch of its tag returned, never the zero value |
| VersionCache.OnlyFetchesChangeEntries | internal/cache/single_flight.go:44-55 | the entries change only by storing a fetched value; a failed fetch leaves them as they are |
| VersionCache.OneFetchPerTag | internal/cache/single_flight.go:44-55 | in every state of every run no two fetches run for one tag |
| VersionCache.HitAlone | internal/cache/single_flight.go:34-43 | a Get of a tag with an entry yields that entry, whatever else is going on |
| VersionCache.MissAlone | internal/cache/single_flight.go:44-73 | a Get of a tag without one, and without a fetch, yields what is fetched for it, which is then its entry |
| VersionCache.FetchFailsAlone | internal/cache/single_flight.go:44-66 | a Get whose fetch fails does so too, leaves the entries alone, and frees the tag |
| VersionCacheMethods.SingleFlightCache.Get | internal/cache/single_flight.go:34-73 | whatever runs meanwhile, a value that is returned is one a completed fetch of the tag returned |
| SignatureWriter.SignsAtMostOnce | enterprise/assetsignature/writer.go:106-144 | as long as no cache operation of a flight failed, no key was signed twice in any run, whatever the callers' own lookups did |
| SignatureWriter.ServesValidBundles | enterprise/assetsignature/writer.go:81-189 | whatever fails, what a caller is served is a valid bundle, and one that was signed or cached for its own key |
| SignatureWriter.OneFlightPerKey | enterprise/assetsignature/writer.go:106-144 | in every state of every run no two functions sign for one key |
| SignatureWriter.HitAlone | enterprise/assetsignature/writer.go:81-105 | a request for a key with a valid bundle in the cache is served that one, and nothing is signed |
| SignatureWriter.MissAlone | enterprise/assetsignature/writer.go:106-161 | a request for a key with none, and no flight, is served the bundle that is signed for it, once, which is then cached |
| SignatureWriter.SigningFailsAlone | enterprise/assetsignature/writer.go:129-137 | when signing fails or makes no valid bundle, the caller is told so, nothing is cached or counted as signed, and the key is free |
| SignatureWriter.CachingFailsAlone | enterprise/assetsignature/writer.go:139-143 | a bundle that cannot be cached is served all the same |
| SignatureMethods.Writer.GenerateSignature | enterprise/assetsignature/writer.go:81-161 | whatever runs meanwhile, a bundle that is returned is valid and of its own key, and without cache faults of a flight its key was signed once at most |
| SpdxMerge.MergedDocument.MergeDocument | enterprise/spdx/builder/spdx.go:151-199 | the loops append to the merged document what the value-level merge of one source appends |
| SpdxMerge.MergedInOrder | enterprise/spdx/builder/spdx.go:79-199 | at its place in the merged document each package and file of each source keeps all but its identifier, which is prefixed; what the source says its own identifier describes the synthetic root contains, with the same comment; every other relationship keeps kind and comment, with both ends prefixed exactly if local and not DOCUMENT; and the synthetic root and its relationship come first |
| SpdxMerge.OneRoot | enterprise/spdx/builder/spdx.go:79-110 | the merged document describes one root if and only if no source with an identifier other than DOCUMENT relates DOCUMENT to what it describes |
| SpdxMerge.Conserves | enterprise/spdx/builder/spdx.go:151-199 | packages, files and relationships are conserved, plus the synthetic root and its relationship |
| SpdxMerge.EndpointsResolve | enterprise/spdx/builder/spdx.go:166-192 | every relationship is kept, and each end that led to a package, a file or the document still does |
| SpdxMerge.SeparateIff | enterprise/spdx/builder/spdx.go:201-210 | two sources keep all their elements apart if and only if their names are prefix-free |
| SpdxMerge.UniqueIDs | enterprise/spdx/builder/spdx.go:201-210 | package and file identifiers stay unique under separate source names |
| SpdxMerge.UniqueForAllContentsIff | enterprise/spdx/builder/spdx.go:69-72 | identifiers stay unique for all contents if and only if the names are prefix-free and none begins the synthetic root's identifier |
| SpdxBundle.Hash | enterprise/spdx/builder/hash.go:25-58 | writes exactly the specified preimage and leaves the caller's list in its order |
| SpdxBundle.PreimagesAgreeIff | enterprise/spdx/builder/hash.go:17-58 | for NUL-free fields two preimages are equal if and only if the extension multisets, version and architecture are |
| SpdxBundle.ExtractedPermutes | enterprise/spdx/builder/builder.go:495-557 | permuting the images that were read permutes the extracted files |
| SpdxContents.ExtractedInOrder | enterprise/spdx/builder/builder.go:495-557 | each entry of the list adds, in order, all files of the extension it means, filed under the last element of the name in the list and the architecture; nothing if it means none or extracting it fails |
| Extensions.ResolvesIff | internal/profile/profile.go:517-532 | a name means the first extension of that repository, or, if there is none, the first of the name it was changed to |
| SpdxBundle.Bundle.ExtractExtensionsSPDX | enterprise/spdx/builder/builder.go:495-557 | appends the files of the known extensions in list order, by alias where the name changed, and skips the others and those whose extraction fails; nothing if the listing fails |
| SpdxBundle.OneOrderIff | enterprise/spdx/builder/spdx.go:112-121 | the sort leaves no choice if and only if source and file name determine the file |
| SpdxBundle.CompareFilesIff | enterprise/spdx/builder/spdx.go:115-121 | files are in order of their sources, and those of one source in order of their names |
| SpdxBundle.MergeFilesMergesAll | enterprise/spdx/builder/spdx.go:123-135 | merging succeeds if and only if every file parses, and is then the merge of the documents |
| SpdxContents.FirstUnparsed | enterprise/spdx/builder/spdx.go:123-128 | merging reports a file if and only if it is the first that does not parse |
| SpdxContents.CreatedWithTalos | enterprise/spdx/builder/spdx.go:130-132 | the merged document was created when the last document named after Talos and the architecture was |
| SpdxBundle.Bundle.BundleToJSON | enterprise/spdx/builder/spdx.go:112-135 | sorts the files in place and yields their merge in that order, or the first that does not parse |
| SharedBundle.BuildBundle | enterprise/spdx/builder/builder.go:295-349 | a build yields its files of Talos and of the extensions it could read, merged in an order that the sort leaves; only a failure to read Talos or to parse a file ends it |
| SharedBundle.CollectedInOrder | enterprise/spdx/builder/builder.go:295-349 | the files of a build are those of Talos, filed as such, and then what the entries of the list add, unless they could not be listed |
| SharedBundle.SharedBundleIsEachOnes | enterprise/spdx/builder/builder.go:160-163 | two builds with one hash preimage yield the same document if they read the same images and source and file name determine the files |
| SharedBundle.StoredBundleIsCompleteIff | enterprise/spdx/builder/builder.go:327-345 | a build yields what one without faults yields, for all contents of the images, if and only if it missed no extension that is available |
| SharedBundle.FailedExtractionExample | enterprise/spdx/builder/builder.go:522-530 | one failed extraction, or a failed listing, and the document that is stored lacks a package |
| SharedBundle.StoreServesEachOnes | enterprise/spdx/builder/builder.go:160-201 | over every history of builds, what a request finds under its key is what its own build would yield, if no build for that key missed an extension |
| SharedBundle.FormerNameIsNotSeparate | enterprise/spdx/builder/builder.go:541-550 | a former extension name that is still accepted is filed under a source that collides with that of Talos for some contents |
| Substitution.KeepsLength | enterprise/spdx/builder/builder.go:230-249 | substitution of equal length keeps the size, for every content |
| Substitution.ChangesOnlyOccurrences | enterprise/spdx/builder/builder.go:287-289 | what one substitution changes lies in an occurrence that it replaced |
| Substitution.OnlyOccurrencesIff | enterprise/spdx/builder/builder.go:287-289 | for every content, two substitutions in sequence change only occurrences of what they replace, if and only if the second text contains the first, or no overlap of it with what replaces the first, and not with the first itself, does harm |
| Reidentify.ServingChangesOnlyIdentityIff | enterprise/spdx/builder/builder.go:257-289 | for every external URL and any two ids, exactly when serving changes only occurrences of the stored name and namespace, whatever is stored |
| Reidentify.NamesAreUsual | enterprise/spdx/builder/spdx.go:225-229 | no end of a document name begins another one, so that all occurrences of one are replaced and none is left |
| Substitution.ServesOnlyOccurrences | enterprise/spdx/builder/builder.go:287-289 | for any texts without such an overlap, what the two substitutions change lies in an occurrence of what they replace |
| Reidentify.NamespacesAreUnbordered | enterprise/spdx/builder/spdx.go:237-255 | namespaces as they are built do not overlap themselves, so that all of their occurrences are replaced |
| Reidentify.NamesAreHarmless | enterprise/spdx/builder/spdx.go:227-255 | the new name has no slash and does no harm, if the external URL is plain and does not contain it |
| Reidentify.ServingChangesOnlyIdentity | enterprise/spdx/builder/builder.go:257-264 | for every content and every place in it, what serving changes is in an occurrence of the stored name or namespace |
| Reidentify.QueryExample | enterprise/spdx/builder/builder.go:211-227 | for any two ids that differ in their first digit, an external URL with a scheme and a host, a content, and a place of it that serving changes and that is in no occurrence of the stored name or namespace |
| Reidentify.IdentifiedBundle.Reader | enterprise/spdx/builder/builder.go:271-293 | as many bytes are served as the bundle reports |
| Reidentify.IdentifyAs | enterprise/spdx/builder/builder.go:211-249 | a bundle is refused if and only if the external URL is malformed or the two ids differ in length |
| Reidentify.BuildDocumentNamespace | enterprise/spdx/builder/spdx.go:237-255 | a namespace is built if and only if the external URL has exactly one scheme separator, parses, and has a scheme and a host |
| JsonText.WellFormedIff | enterprise/spdx/builder/spdx.go:237-255 | an external URL is accepted if and only if the separator of a scheme occurs in it once, and it parses to a scheme and a host |
| Reidentify.ServedIsBuiltDirectlyIff | enterprise/spdx/builder/builder.go:211-293 | what is served of a JSON document, in which name and namespace occur only as such, equals the document built under the requested identity if and only if nothing in the namespace is escaped; otherwise it has the cached namespace |
| Reidentify.AmpersandExample | enterprise/spdx/builder/builder.go:211-293 | an external URL with an ampersand, and a document that is served with the cached namespace |
| JsonText.ReadBack | enterprise/spdx/builder/spdx.go:137-140 | what is encoded as a JSON string is read back |
| Provenance.CompareIsTotalOrder | internal/installer/provenance.go:167-202 | dependencies are totally ordered, and ranked equal if and only if they are equal, digest maps included |
| Provenance.CompareIff | internal/installer/provenance.go:167-202 | one dependency comes before another if and only if it does by the first that differs of URI, name, media type, algorithms and digests |
| Provenance.CompareResolvedDependencies | internal/installer/provenance.go:167-202 | the loops over fields, sorted algorithms and digests compute that order, whatever order maps are iterated in |
| Provenance.Compact | internal/installer/provenance.go:115-117 | compacting a sorted list yields a strictly increasing one with the same elements |
| Provenance.NormalizeDependencies | internal/installer/provenance.go:113-117 | clone, sort and compact yield the strictly increasing list of what was resolved, which is left as it is |
| Provenance.NormalFormOfTheSet | internal/installer/provenance.go:113-117 | two inputs have one normal form if and only if they are the same set |
| Provenance.ProvenanceSubjects | internal/installer/provenance.go:60-76 | the subjects are the index and each platform in order, if and only if all have digests |
| Enhance.KeyInjective | internal/profile/profile.go:314-315 | the capture key tells apart kind, architecture and reference |
| Enhance.CapturedExactlyOnce | internal/profile/profile.go:307-349 | every consumed image is recorded exactly once, and nothing else |
| Enhance.DependenciesAreConsumed | internal/profile/profile.go:353-382 | the recorded dependencies of an enhancement are exactly the images it consumes, each kind, architecture and reference once |
| Enhance.ExtensionImagesInOrder | internal/profile/profile.go:517-538 | the extension images are those of the requested names, in order |
| Enhance.Profile.EnhanceFromSchematic | internal/profile/profile.go:426-645 | it reports exactly the first thing in the way; on success exactly the base installer, the extensions in order and both overlay images are consumed and are in the profile, with the schematic's tarball after the extensions |
| Enhance.EnhancesIff | internal/profile/profile.go:426-645 | it succeeds if and only if all images are there, the overlay merges, the version supports what is asked for, and a profile that is to be signed can be |
| EnhancedOptions.OptionsAre | internal/profile/profile.go:426-645 | for each kind of output, after enhancement: kernel arguments for an Installer or a UKI if and only if it is signed or unified, no more for a kernel or an initramfs, arguments and META for the rest; bootloader and sector size by kind; and everything else as it was or as the overlay has it |
| EnhancedOptions.EnhancementSucceedsIff | internal/profile/profile.go:426-645 | enhancement succeeds if and only if nothing is in the way, each obstacle in terms of the schematic, the version and what the registries hold |
| EnhancedOptions.FirstObstacleIsReported | internal/profile/profile.go:426-594 | the error of an enhancement is that of the first obstacle in its way, of twelve in order: invalid if the schematic asks for what is not supported or not on offer, a failure if something cannot be had, a panic without a service for secure boot |
| EnhancedOptions.ConsumedAre | internal/profile/profile.go:499-594 | which image is at which place among those consumed: base installer, one for each extension, and the overlay for the host and for the target |
| EnhancedOptions.SignedIff | internal/profile/profile.go:446-495 | a profile is signed if and only if that was asked for, or it is an installer, its version has unified installers and forces no lockdown, and signing is enabled |
| Enhance.Profile.EnhanceWithDependencies | internal/profile/profile.go:351-382 | the dependencies are the consumed images, and the base installer is bound to the reference that was resolved |
| Enhance.Profile.PrepareSecureBoot | internal/profile/profile.go:446-495 | secure boot ends up on exactly for profiles that had it and installers that are signed automatically |
| Enhance.Profile.Customize | internal/profile/profile.go:596-639 | sets the options of the profile, in place, to those of the value-level customization, which EnhancedOptions.OptionsAre states for each kind of output |
| ProfileHash.BaseIdempotent | internal/profile/hash.go:124-146 | the base of a base name is itself |
| ProfileIdentity.BaseIsLastElement | internal/profile/hash.go:124-146 | the base of any path is its last element, whatever directory precedes it and whatever slashes follow it |
| ProfileHash.CleanIdempotent | internal/profile/hash.go:101-146 | cleaning twice is cleaning once |
| ProfileHash.PathsCleanByName | internal/profile/hash.go:124-146 | the directory of an input does not matter, its file name does |
| ProfileHash.DirectoryIgnoredIff | internal/profile/hash.go:101-122 | cleaning makes a profile independent of the directory its inputs were unpacked into if and only if no overlay image has a path |
| ProfileIdentity.IdentityIs | internal/profile/hash.go:101-146 | what cleaning leaves of a profile whose inputs were unpacked into any directory: file names, last elements of references, secure boot assets without the paths of their keys, and all else as it was |
| ProfileIdentity.ErrataAre | internal/profile/hash.go:37-95 | the markers that are hashed are those of all errata that apply to kind, platform, architecture, overlay and secure boot, in order |
| ProfileHash.OverlayPathExample | internal/profile/hash.go:101-122 | overlay images unpacked into two directories, and two different identities |
| ProfileHash.DigestSurvives | internal/profile/hash.go:135-139 | a digest bound into the base installer's reference survives cleaning |
| ProfileHash.DigestsTellApart | internal/profile/profile.go:371-379 | profiles with different base installer digests differ after cleaning |
| AssetIdentity.EnhanceAndHash | internal/profile/profile.go:371-379 | what is hashed for an enhanced installer names the digest its base installer was resolved to, and differs from what is hashed for any other digest |
| ProfileHash.Profile.Clean | internal/profile/hash.go:101-146 | cleans in place, through the extension slice and the secure boot assets |
| ProfileHash.Hash | internal/profile/hash.go:24-98 | hashes the cleaned copy and the errata that apply, and leaves its argument and all it refers to unchanged |
| Wizard.QueryRoundTripIff | frontend/src/wizard/params.ts:69-121 | a query gives the choices back if and only if they are well-formed |
| Wizard.WriteQuery | frontend/src/wizard/params.ts:95-121 | the query that is filled field by field |
| WizardChoices.QuerySays | frontend/src/wizard/params.ts:95-121 | what the query says for each key, for any choices: a platform for metal and the cloud only, a board for its target only, and none of what a schematic holds once there is one |
| WizardChoices.QueryMeans | frontend/src/wizard/params.ts:69-89 | what any query is taken to say, key by key |
| WizardChoices.ExtensionsMean | frontend/src/wizard/params.ts:69-89 | the extensions of any query: none as long as no value counts, and else those that count and are not a dash, in order |
| Wizard.Clear | frontend/src/wizard/params.ts:148-175 | clears exactly the choices of a step and of those after it |
| WizardChoices.ClearsFrom | frontend/src/wizard/params.ts:148-175 | going back to a step keeps what was chosen on each earlier step, and nothing of what was chosen on any other |
| Wizard.ClearFromComposes | frontend/src/wizard/params.ts:148-175 | going back twice is going back to the earlier step |
| Wizard.BackShowsStepIff | frontend/src/wizard/params.ts:136-175 | going back to a step shows it if and only if it applies and had been reached |
| Wizard.PreviousStep | frontend/src/wizard/params.ts:177-196 | the last earlier step that asks something, skipping a decided architecture |
| Wizard.BackGoesBack | frontend/src/wizard/params.ts:177-196 | Back from a step that was reached shows the step it leads to |
| Wizard.ReadSchematic | frontend/src/wizard/params.ts:249-282 | the choices that are read back field by field |
| Wizard.SchematicHolds | frontend/src/wizard/params.ts:201-247 | what the schematic of a wizard holds, part by part, and when there is none: the words of the command line, the extensions sorted, the bootloader unless automatic, the configuration unless blank, and the overlay of a single-board computer with its options |
| WizardChoices.SchematicMeans | frontend/src/wizard/params.ts:249-282 | the choices that any schematic is read back as |
| Wizard.RestoredBuildsTheSame | frontend/src/wizard/params.ts:201-282 | a restored wizard builds the same kernel arguments, extensions and embedded configuration; the same bootloader if and only if it is not none; the same overlay if and only if it says something |
| Wizard.NoneIsLost | frontend/src/wizard/params.ts:260-263 | the bootloader choice none is lost |
| Wizard.EmptyOptionsAreLost | frontend/src/wizard/params.ts:270-279 | overlay options that are an empty mapping are lost |

## Left out

- Registry, HTTP, object storage, file system, archive and squashfs I/O: maps, sets and operations that may fail.
- Cryptography and SHA-256: signatures are ideal, and cache keys are claims about what is hashed.
- YAML, JSON and semver parsing, and the Talos libraries: functions given as parameters, with the laws named where they are needed.
- Browser login, htpasswd, cookies, routing, CORS, metrics, audit and logging.
- Liveness: back-off, timers and the time of the next refresh. A step that can be taken need never be taken.
- Snippets and extracted licences of SPDX documents: copied, and counted, but nothing is claimed about their identifiers.
- Start-up of the issuer and key files: the issuer is its key names and lifetimes.
- TokenStore.ValidIsLedger: one clock for all replicas; skew between them is not modelled.
- TokenStorage.Storage.ReadRecords: a listing whose reads all succeed; a read that fails makes the source return an error instead.
- TokenCap.OvershootBound: tokens revoked or expired are one set; which of the two happened does not matter to the cap.
- Delegation.Verify: a token carries one signature, so that the source's check for exactly one has no counterpart.
- Publication.AnswerWasVerified: a caller's request is the one with its tag resolved, as PublicationService.Replica.Manifest makes it.
- PublicationService.Replica.Manifest: a caller waits for a flight for one pause, and otherwise reports an error as it does when its client goes away.
- SchematicMethods.Factory.Put: the retry loop is followed for as many flights as it is given, any number of them.
- VersionCache.GetReturnsFetched: the mutex is the atomicity of each step.
- SignatureWriter.SignsAtMostOnce: counts signatures that are valid bundles, since a signer that fails may be asked again.
- ScannerMethods.Builder.Build: rendering the report from the document; the SBOM and VEX documents a scan needs may fail to be had.
- SpdxMerge.UniqueIDs: sources have distinct names; two files of one source share a prefix and are kept apart only by their own identifiers.
- Reidentify.ServedIsBuiltDirectlyIff: an external URL whose query has a quote or a backslash; the rest of the document is any text in which nothing that is escaped stands as it is.
- Reidentify.BuildDocumentNamespace: parsing the external URL is a parameter, and joining a path is appending its segments, which have no slashes and are not dots.
- Reidentify.ServingChangesOnlyIdentityIff: a version that contains `talos-` and one of the two ids.
- Reidentify.NamesAreHarmless: an external URL with a query, with a scheme that has a digit 4, or that contains the new name is left to Reidentify.ServingChangesOnlyIdentityIff.
- SharedBundle.StoreServesEachOnes: what the registries hold for a version does not change between the builds.
- AssetIdentity.EnhanceAndHash: the options and secure boot assets of a profile are a parameter, as its encoding is.
- Enhance.Profile.EnhanceFromSchematic: secure boot assets are opaque, and merging an overlay's own profile is a parameter that may change the options but not the images.
- ProfileHash.Hash: the YAML encoding is a parameter, as is everything in a profile that cleaning does not touch.
- Versions.Manager.GetTalosVersions: the clock and what the registry lists are parameters; that the fetch is shared, and a caller that gives up on it, are not modelled.
- Versions.ResolveLatest: returns the version; the tag is "v" and its text, which is a parameter of PublicationService.Replica.Manifest.
- Wizard.RestoredBuildsTheSame: reading and writing YAML are parameters, and a schematic is taken as the value its YAML stands for.
