# Tesla personal platform: verified protocols

A Dafny model of the stateful protocols of a self-hosted Tesla data platform, with proofs about every
input, every fault pattern and every run. Google, Tesla, ACME and OpenSSL calls are nondeterministic
and may fail, with or without effect where the service allows both.

- `ViewManifest`, `ViewCatalog`, `ViewPromotion`, `ViewReconciler`: the analytics views of one BigQuery
  dataset. The manifest is validated and rendered, a shadow copy of the graph is created and removed,
  the real views are promoted with an undo log, stale views are deleted, and the access list is widened
  around all of it.
- `RenewalWindow`, `CertificateRelease`: when a TLS certificate is due, and how releases of it are
  published to versioned secrets, deployed, verified and pruned, with a stop possible at any call.
- `TokenRotation`: optimistic rotation of single-use refresh tokens (section 6 of RFC 6749) by any
  number of interleaved callers.
- `Email`, `IdentityBinding`, `IdentityStores`: the allowlist and the identity bindings, and the
  in-memory store that stands in for them.
- `VehicleRegistry`: the VIN index, the vehicle records, and the telemetry routed through both.
- `CallerPayload`: the worklist that refuses tenant selection in a caller's JSON.
- `CommandAudit`: one audited write tool end to end, over audit, wake, poll, command and retry.
- `TelemetryConfig`, `TelemetryDiff`, `TelemetryProfile`, `TelemetryControl`: Fleet Telemetry payloads,
  differences, profiles, and the control plane that applies them canary first.

Code that changes state is modelled by classes and loops proved against specification functions; the
properties are lemmas about those functions and invariants of every step. Firestore transactions take
effect on return and not at all on an error.

## Where code and documentation differ

- The comment on pruning calls it safe under a concurrent run (`services/certificate-renewer/src/tesla_personal_platform/certificate_renewer/main.py:199-201`). That covers a run
  whose versions are all newer. `CertificateRelease.LateReleaseSurvivesExactly` gives the exact condition
  and `CertificateRelease.OverlapCanStrandARelease` two runs that break it; the safety theorem is about
  runs one after another.
- The notice attached to dropped include lists says the included field remains configured
  (`packages/tesla-client/src/tesla_personal_platform/tesla_client/telemetry.py:200-202`). `TelemetryProfile.IncludedRemainConfigured` says exactly when, and
  `TelemetryProfile.IncludedMayBeExcluded` that the checks do not ensure it.
- The reconciler's postcondition error is reachable without concurrent writers, but only when a desired
  name stands for an object whose type the service does not report: promotion accepts such an object
  and the managed test does not. `ViewReconciler.ReconciledMeaning` states this as an equivalence and
  `ViewReconciler.UntypedNameBreaksPostcondition` gives a catalog.
- Deleting stale views can leave a view outside the manifest, or a stale one not yet deleted, without a
  source. `ViewReconciler.EveryOrderIsClosedExactly` and `ViewReconciler.RemovableExactly` say exactly
  when it cannot, and `ViewReconciler.RemovalMayBreakClosure` gives a catalog where it does.
- A losing refresher marks the connection for re-authorization unconditionally, without comparing the
  version it read. `TokenRotation.MarkingDemotesExactly` says exactly when the connection marked still
  holds a usable token, and `TokenRotation.LoserDemotesAHealthyConnection` shows such a run.
- The check for inactive vehicles in `_eligible_vehicle` cannot fail, because reading the record has
  already refused them (`TelemetryControl.ControlPlane.EligibleVehicle`).

## Model

| member | source | states |
|---|---|---|
| ViewManifest.ValidateManifest | packages/analytics/src/tesla_personal_platform/analytics/view_definitions/loader.py:85-97 | accepts exactly the duplicate-free topological orders; on refusal names the first offending view and its unknown or late dependencies |
| ViewManifest.CardinalityMeansDistinct | packages/analytics/src/tesla_personal_platform/analytics/view_definitions/loader.py:86-88 | the cardinality comparison used as the duplicate test is one |
| ViewManifest.ValidateRenderedSql | packages/analytics/src/tesla_personal_platform/analytics/view_definitions/loader.py:138-163 | accepts SQL exactly if it is one query whose tables in this dataset are the declared ones, and whose only other tables are its own common table expressions |
| ViewManifest.AnalyticsViews | packages/analytics/src/tesla_personal_platform/analytics/view_definitions/loader.py:100-135 | renders exactly the topological orders all of whose views refer to precisely what they declare; refuses the others with the matching kind of error |
| ViewPromotion.RenderedExactly | packages/analytics/src/tesla_personal_platform/analytics/view_definitions/loader.py:100-135 | the name, description, text and references each view is rendered to |
| ViewCatalog.Dataset.CreateTable | packages/auth/src/tesla_personal_platform/auth/bigquery_admin.py:247-251 | a failed create has no effect; an existing name is refused |
| ViewCatalog.Dataset.UpdateTable | packages/auth/src/tesla_personal_platform/auth/bigquery_admin.py:276-280 | an update writes the four view fields only, and a failed one may have taken effect |
| ViewCatalog.Dataset.DeleteTable | packages/auth/src/tesla_personal_platform/auth/bigquery_admin.py:296-296 | deleting an absent object succeeds, and a failed delete may have taken effect |
| ViewPromotion.PutViewsFrame | packages/auth/src/tesla_personal_platform/auth/bigquery_admin.py:228-280 | promotion adds only the desired names, touches no other object, and keeps type and storage of what it rewrites |
| ViewPromotion.PutViewsFields | packages/auth/src/tesla_personal_platform/auth/bigquery_admin.py:235-275 | after promotion each name carries description, labels, query and SQL mode of its last definition, even when names repeat |
| ViewPromotion.DesiredExactly | packages/auth/src/tesla_personal_platform/auth/bigquery_admin.py:197-243 | description, query, SQL mode and labels given to a promoted view, and how its shadow differs |
| ViewPromotion.DefinitionIsIdentified | packages/auth/src/tesla_personal_platform/auth/bigquery_admin.py:102-105 | the definition label identifies description and SQL |
| ViewPromotion.ManagedExactly | packages/auth/src/tesla_personal_platform/auth/bigquery_admin.py:108-116 | exactly which objects count as managed |
| ViewPromotion.StagedIsClosed | packages/auth/src/tesla_personal_platform/auth/bigquery_admin.py:184-226 | a graph created or rewritten up to any point in manifest order, on a closed dataset, is closed |
| ViewPromotion.RenderedInCreationOrder | packages/analytics/src/tesla_personal_platform/analytics/view_definitions/loader.py:115-121 | an accepted manifest renders into an order in which every view refers to what is already there |
| ViewPromotion.ShadowsInCreationOrder | packages/analytics/src/tesla_personal_platform/analytics/view_definitions/loader.py:115-121 | so does the shadow graph, under any dependency prefix |
| ViewPromotion.RecordedExtended | packages/auth/src/tesla_personal_platform/auth/bigquery_admin.py:249-269 | the undo log stays a complete account of the differences from the starting catalog, its oldest entry per name remembering the original |
| ViewPromotion.UnwindOne | packages/auth/src/tesla_personal_platform/auth/bigquery_admin.py:293-308 | undoing one entry restores it and disturbs no other entry; a failed undo loses only its own |
| ViewPromotion.FullyUnwound | packages/auth/src/tesla_personal_platform/auth/bigquery_admin.py:287-310 | a log replayed without failure gives back the starting catalog, whatever mix of creations and rewrites it holds |
| ViewPromotion.Rollback | packages/auth/src/tesla_personal_platform/auth/bigquery_admin.py:287-310 | attempts every entry once, newest first, whichever others failed; an entry failed exactly if a call made for it did; if every call worked the catalog is the starting one and was closed throughout; the error reported is the first one met |
| ViewPromotion.ReplayFailures | packages/auth/src/tesla_personal_platform/auth/bigquery_admin.py:293-308 | of a replay that attempts every entry, none failed exactly if every call worked |
| ViewPromotion.EveryEntryIsAttempted | packages/auth/src/tesla_personal_platform/auth/bigquery_admin.py:293-308 | such a replay holds a call for each entry |
| ViewPromotion.Abandon | packages/auth/src/tesla_personal_platform/auth/bigquery_admin.py:281-285 | a rollback error is reported exactly if some call of the rollback did not work, otherwise the catalog is restored |
| ViewPromotion.UndoEntry | packages/auth/src/tesla_personal_platform/auth/bigquery_admin.py:295-306 | an entry is undone by deletion or by rewriting the four fields |
| ViewPromotion.PromoteOne | packages/auth/src/tesla_personal_platform/auth/bigquery_admin.py:237-280 | one view is created or rewritten without a failing call, its change logged before anything is overwritten; anything but a view is refused |
| ViewPromotion.Promote | packages/auth/src/tesla_personal_platform/auth/bigquery_admin.py:228-285 | all views are promoted, or the catalog is exactly what it was, or some rollback call did not work and every other change was still undone; promotion fails only if a call failed or a name stands for something that is not a view; every intermediate catalog is closed unless rollback failed |
| ViewPromotion.OneStepBack | packages/auth/src/tesla_personal_platform/auth/bigquery_admin.py:293-308 | undoing the newest staged view leaves a closed graph |
| ViewPromotion.StagedForward | packages/auth/src/tesla_personal_platform/auth/bigquery_admin.py:237-280 | creating or rewriting the next view in order extends the staged graph by one |
| ViewReconciler.CreateShadows | packages/auth/src/tesla_personal_platform/auth/bigquery_admin.py:196-214 | shadows are created in order up to the first failing call, adding exactly the recorded names, each an expiring view with the preflight label |
| ViewReconciler.Cleanup | packages/auth/src/tesla_personal_platform/auth/bigquery_admin.py:216-222 | attempts to delete every created shadow once, newest first; clean exactly if every deletion worked, and then the catalog is what it was and was closed all along |
| ViewReconciler.RunPreflight | packages/auth/src/tesla_personal_platform/auth/bigquery_admin.py:184-226 | every shadow created is attempted to be deleted; a cleanup failure is reported exactly if a deletion failed, and otherwise the catalog is preserved; on every outcome what is left over is labelled so that the managed set is what it was; an unrenderable graph makes no call |
| ViewReconciler.ShadowsKeepManaged | packages/auth/src/tesla_personal_platform/auth/bigquery_admin.py:113-122 | objects added with the preflight label leave the set of managed names as it was |
| ViewReconciler.PromotedIsManaged | packages/auth/src/tesla_personal_platform/auth/bigquery_admin.py:108-116 | a promoted name counts as managed afterwards exactly if it was free or stood for an object reported as a view |
| ViewReconciler.ReconciledMeaning | packages/auth/src/tesla_personal_platform/auth/bigquery_admin.py:141-182 | after promotion and stale removal the managed set equals the desired set exactly if every desired name was free or reported as a view; no other object differs |
| ViewReconciler.RemoveStale | packages/auth/src/tesla_personal_platform/auth/bigquery_admin.py:157-169 | deletes exactly the managed views that are not desired and counts them; an interruption leaves a subset deleted; if nothing refers to a stale view the catalog stays closed throughout |
| ViewReconciler.ReadManaged | packages/auth/src/tesla_personal_platform/auth/bigquery_admin.py:170-174 | reads back exactly the managed names |
| ViewReconciler.ReconcileViews | packages/auth/src/tesla_personal_platform/auth/bigquery_admin.py:152-178 | each outcome explains the catalog it leaves; if the graph renders and no desired name stands for something else, only a failing call keeps it from being done; unless shadow cleanup or rollback failed, the catalog stays closed throughout, under the removability condition only if the removal was reached |
| ViewReconciler.FinishReconciliation | packages/auth/src/tesla_personal_platform/auth/bigquery_admin.py:155-177 | after promotion: done, interrupted by a failing call, or the postcondition error, which leaves the reconciled catalog and means that a desired name stood for an object without a reported type; if what is stale is removable the catalog stays closed throughout |
| ViewReconciler.RemovedIsClosedExactly | packages/auth/src/tesla_personal_platform/auth/bigquery_admin.py:157-169 | a closed catalog less some objects is closed exactly if no view left refers to one of them |
| ViewReconciler.EveryOrderIsClosedExactly | packages/auth/src/tesla_personal_platform/auth/bigquery_admin.py:157-169 | removing a set of objects one by one is closed at every moment in every order exactly if no other view refers to any of them, stale views included |
| ViewReconciler.RemovableExactly | packages/auth/src/tesla_personal_platform/auth/bigquery_admin.py:152-169 | that holds after promotion exactly if no manifest source is stale and no object outside the manifest refers to a stale view other than itself, which can be checked before the call |
| ViewReconciler.RemovalMayBreakClosure | packages/auth/src/tesla_personal_platform/auth/bigquery_admin.py:157-169 | a closed catalog that reconciliation leaves with a dangling view |
| ViewReconciler.UntypedNameBreaksPostcondition | packages/auth/src/tesla_personal_platform/auth/bigquery_admin.py:172-175 | a catalog for which that error arises |
| ViewReconciler.TemporaryReaderAccess | packages/auth/src/tesla_personal_platform/auth/bigquery_admin.py:86-99 | permanent entries are kept in order and the one reader is added if it is missing |
| ViewReconciler.Reconcile | packages/auth/src/tesla_personal_platform/auth/bigquery_admin.py:141-182 | nothing is done unless the access list could be widened; once it has been, every exit ends with the two restoring calls, and the list is as it was unless one of them failed; it is never anything but the permanent list or that list with the reader |
| RenewalWindow.DivideAndRound | services/certificate-renewer/src/tesla_personal_platform/certificate_renewer/main.py:477-478 | the lifetime fraction is within half a microsecond of the quotient |
| RenewalWindow.DueExactly | services/certificate-renewer/src/tesla_personal_platform/certificate_renewer/main.py:471-478 | to the microsecond, due once less than half of a lifetime of up to ten days is left, or less than a third of a longer one, and always without a lifetime |
| RenewalWindow.DueStaysDue | services/certificate-renewer/src/tesla_personal_platform/certificate_renewer/main.py:471-478 | once due, a certificate stays due |
| RenewalWindow.NotDueIsValid | services/certificate-renewer/src/tesla_personal_platform/certificate_renewer/main.py:471-478 | a certificate that is not due has its whole fraction of validity left |
| RenewalWindow.CaughtInTime | services/certificate-renewer/src/tesla_personal_platform/certificate_renewer/main.py:471-478 | a schedule with gaps within the fraction finds the certificate due with at least the fraction less one gap left |
| RenewalWindow.BoundIsTight | services/certificate-renewer/src/tesla_personal_platform/certificate_renewer/main.py:471-478 | and that bound cannot be improved for any certificate or gap |
| RenewalWindow.ActivatedFraction | services/certificate-renewer/src/tesla_personal_platform/certificate_renewer/main.py:433-434 | a certificate that passed the seven-day activation window has a due fraction of at least 80 hours |
| RenewalWindow.TwiceDailySuffices | services/certificate-renewer/src/tesla_personal_platform/certificate_renewer/main.py:744-749 | twice-daily checks find every activated certificate due with at least 68 hours left |
| CertificateRelease.AddingMaterialIsSafe | services/certificate-renewer/src/tesla_personal_platform/certificate_renewer/main.py:785-798 | adding a certificate, key or state version never endangers the newest or the verified release |
| CertificateRelease.PublishingIsSafe | services/certificate-renewer/src/tesla_personal_platform/certificate_renewer/main.py:799-812 | publishing a manifest that names and describes the newest material keeps every release the invariant protects intact |
| CertificateRelease.PublishedIsIntact | services/certificate-renewer/src/tesla_personal_platform/certificate_renewer/main.py:541-566 | the release so published is present and its digests match the stored certificate and key |
| CertificateRelease.VerifyingIsSafe | services/certificate-renewer/src/tesla_personal_platform/certificate_renewer/main.py:662-686 | recording the newest release as verified on the edge keeps the store safe |
| CertificateRelease.DestroyingIsSafe | services/certificate-renewer/src/tesla_personal_platform/certificate_renewer/main.py:208-220 | destroying a version below what the verified newest release retains keeps the store safe |
| CertificateRelease.SecretManager.PruneSecret | services/certificate-renewer/src/tesla_personal_platform/certificate_renewer/main.py:208-220 | exactly the versions from the stopping point up to the retained one are destroyed, nothing else changes, and the store is safe wherever it stops |
| CertificateRelease.SecretManager.PruneOldReleaseVersions | services/certificate-renewer/src/tesla_personal_platform/certificate_renewer/main.py:192-220 | requires a verified newest release; on success everything older than what it retains is gone; safe wherever it stops |
| CertificateRelease.Edge.Deploy | services/certificate-renewer/src/tesla_personal_platform/certificate_renewer/main.py:662-686 | success means the last look showed the marker of this release and its leaf, and no earlier one did; one reset exactly if the first look showed neither, then one look every ten seconds until one settles it or the deadline has passed; failure means a failing call or a deadline without the release |
| CertificateRelease.ActiveReleaseMaterial | services/certificate-renewer/src/tesla_personal_platform/certificate_renewer/main.py:445-468 | returns the stored chain exactly if it can be read, fits the host and matches both digests of the manifest |
| CertificateRelease.Candidate | services/certificate-renewer/src/tesla_personal_platform/certificate_renewer/main.py:734-764 | a stored lineage that is fit and not due is reused without asking; otherwise the certificate authority is asked once and what it issues taken exactly if fit: complete, for this host, with its key, and valid for another seven days |
| CertificateRelease.ApprovesExactly | services/certificate-renewer/src/tesla_personal_platform/certificate_renewer/main.py:588-608 | which approvals allow a changed trust profile |
| CertificateRelease.Publish | services/certificate-renewer/src/tesla_personal_platform/certificate_renewer/main.py:785-812 | three additions and then the manifest, safe at every stop, the manifest naming exactly what was added |
| CertificateRelease.MaterialIsDescribed | services/certificate-renewer/src/tesla_personal_platform/certificate_renewer/main.py:541-566 | the manifest describes the material just added |
| CertificateRelease.Activate | services/certificate-renewer/src/tesla_personal_platform/certificate_renewer/main.py:767-783 | on every exit the store and the verified mark are unchanged, or the edge showed the newest release in this call; success means it did, and exactly the older versions are gone |
| CertificateRelease.Renew | services/certificate-renewer/src/tesla_personal_platform/certificate_renewer/main.py:689-834 | on every exit the store is safe, nothing was marked verified or destroyed unless the edge showed the newest release in this run, nothing was published under a changed trust profile without a matching approval, or under an unchanged one unless the active certificate was due, and a certificate was asked for at most once and only if the archived lineage could not be used; a finished run met no failing call, verified a complete chain for this host under this trust profile as the newest release and pruned everything older, and keeps a due certificate only if the authority issued it again; a run raises only for a failed call or crash, an edge that did not show the release in time, a stored or unapproved state that forbids it, or an unfit issue |
| CertificateRelease.Reissue | services/certificate-renewer/src/tesla_personal_platform/certificate_renewer/main.py:750-834 | the part of a run that may publish keeps the same promises |
| CertificateRelease.Deliver | services/certificate-renewer/src/tesla_personal_platform/certificate_renewer/main.py:766-834 | so does its end, which publishes a candidate only if the newest release does not serve it already |
| CertificateRelease.KeepActive | services/certificate-renewer/src/tesla_personal_platform/certificate_renewer/main.py:712-725 | so does the check of an active certificate that is not due, which deploys and prunes and asks for nothing |
| CertificateRelease.PublishAndActivate | services/certificate-renewer/src/tesla_personal_platform/certificate_renewer/main.py:785-834 | publishes, then activates; on every exit nothing was destroyed or marked unless the edge showed the newest release |
| CertificateRelease.StepIsSafe | services/certificate-renewer/src/tesla_personal_platform/certificate_renewer/main.py:689-834 | every addition, verification and destruction a run may make keeps the invariant |
| CertificateRelease.EveryMomentIsSafe | services/certificate-renewer/src/tesla_personal_platform/certificate_renewer/main.py:689-834 | over any number of runs in sequence, each able to stop between any two calls, at every moment the newest and the last verified release are intact, every secret keeps its newest version, and only versions below what the verified release retains are gone |
| CertificateRelease.DestructionFollowsVerification | services/certificate-renewer/src/tesla_personal_platform/certificate_renewer/main.py:192-220 | whenever a version is destroyed, the release then newest was verified before and none has been added since |
| CertificateRelease.LateReleaseSurvivesExactly | services/certificate-renewer/src/tesla_personal_platform/certificate_renewer/main.py:199-201 | a release published after another run has pruned, wherever between the late run's own writes the prune came, is intact exactly if none of the versions it names is older than those retained |
| CertificateRelease.OverlapCanStrandARelease | services/certificate-renewer/src/tesla_personal_platform/certificate_renewer/main.py:199-201 | for every two candidates, two overlapping runs for which the stated safety of concurrent pruning fails: the late run publishes a release naming a destroyed certificate |
| TokenRotation.ConnectionStore.Get | services/mcp-gateway/src/tesla_personal_platform/mcp_gateway/tesla_firestore.py:100-104 | returns the owner's connection or refuses |
| TokenRotation.ConnectionStore.Save | services/mcp-gateway/src/tesla_personal_platform/mcp_gateway/tesla_firestore.py:428-473 | re-authorization keeps the connection's identifier, counts its version up and touches no other user |
| TokenRotation.ConnectionStore.Rotate | services/mcp-gateway/src/tesla_personal_platform/mcp_gateway/tesla_firestore.py:476-514 | commits exactly while the expected version is stored, otherwise writes nothing |
| TokenRotation.ConnectionStore.SetStatus | services/mcp-gateway/src/tesla_personal_platform/mcp_gateway/tesla_firestore.py:127-133 | an unconditional status write that keeps tokens and version |
| TokenRotation.TokenService.AccessToken | services/mcp-gateway/src/tesla_personal_platform/mcp_gateway/tesla_onboarding.py:356-401 | the provider's steps in order, with any steps by others in between; what it read decides: a missing, foreign or marked connection is refused without contacting the server, a fresh one handed out as it is unless forced, and any other refreshed, ending in committed tokens of a newer version unless the server was out of reach, its reply was lost, or it rejected the token read |
| TokenRotation.ReadExactly | services/mcp-gateway/src/tesla_personal_platform/mcp_gateway/tesla_onboarding.py:363-368 | where a read leaves the caller, by what is stored |
| TokenRotation.RefreshExactly | services/mcp-gateway/src/tesla_personal_platform/mcp_gateway/tesla_onboarding.py:369-377 | a refresh spends an accepted token on a new one, delivered or not, and any other token is rejected; nothing is stored |
| TokenRotation.CommitExactly | services/mcp-gateway/src/tesla_personal_platform/mcp_gateway/tesla_firestore.py:486-514 | a commit stores the new tokens under the next version, connected, if the version read is still stored, and otherwise changes nothing |
| TokenRotation.RereadExactly | services/mcp-gateway/src/tesla_personal_platform/mcp_gateway/tesla_onboarding.py:383-384 | after a conflict what is stored then is handed out |
| TokenRotation.AuthorizationExactly | services/mcp-gateway/src/tesla_personal_platform/mcp_gateway/tesla_firestore.py:428-473 | what each step of an authorization stores |
| TokenRotation.MarkExactly | services/mcp-gateway/src/tesla_personal_platform/mcp_gateway/tesla_firestore.py:127-133 | marking changes the status and nothing else |
| TokenRotation.StepKeepsInv | services/mcp-gateway/src/tesla_personal_platform/mcp_gateway/tesla_onboarding.py:356-401 | every step of every caller keeps the invariant on stored, spent and held tokens |
| TokenRotation.RunKeepsInv | services/mcp-gateway/src/tesla_personal_platform/mcp_gateway/tesla_onboarding.py:329-401 | so does every interleaving of any number of callers |
| TokenRotation.VersionsIdentifyTokens | services/mcp-gateway/src/tesla_personal_platform/mcp_gateway/tesla_firestore.py:428-514 | the version counts the successful token writes and never stands for two different token sets |
| TokenRotation.CommitsOnlyFromStoredVersion | services/mcp-gateway/src/tesla_personal_platform/mcp_gateway/tesla_firestore.py:486-514 | a refresh commits exactly if the version it read is still stored, and then as the next version |
| TokenRotation.RefresherReturnsNewer | services/mcp-gateway/src/tesla_personal_platform/mcp_gateway/tesla_onboarding.py:374-385 | a caller that refreshed returns committed tokens of a version newer than the one it read |
| TokenRotation.ConflictMeansReauthorized | services/mcp-gateway/src/tesla_personal_platform/mcp_gateway/tesla_onboarding.py:383-384 | a conflict is only ever caused by a re-authorization, never by another refresh |
| TokenRotation.ChainIsNeverCut | services/mcp-gateway/src/tesla_personal_platform/mcp_gateway/tesla_onboarding.py:367-384 | the server accepts the stored refresh token, or exactly one caller spent it and the server accepts its successor; that caller holds the successor and its commit would store it, unless the reply was lost, and then no step of that caller changes anything |
| TokenRotation.MarkingDemotesExactly | services/mcp-gateway/src/tesla_personal_platform/mcp_gateway/tesla_firestore.py:127-133 | when a rejected caller marks the connection, the stored token is dead if the version it read is still stored, and otherwise usable exactly if no caller has spent it |
| TokenRotation.LoserDemotesAHealthyConnection | services/mcp-gateway/src/tesla_personal_platform/mcp_gateway/tesla_firestore.py:127-133 | a run in which the loser of a refresh race marks a connection whose stored token is usable |
| Email.NormalFormIsStable | packages/auth/src/tesla_personal_platform/auth/core.py:66-72 | a normalised address is its own normal form and has one at-sign with text on both sides |
| Email.NormalFormExactly | packages/auth/src/tesla_personal_platform/auth/core.py:66-72 | the normal form is the address without the white space around it, in lower case, exactly if that has one at-sign with text on both sides |
| IdentityBinding.BindFirstByCases | packages/auth/src/tesla_personal_platform/auth/firestore.py:142-180 | what a first login does on consistent collections, branch by branch |
| IdentityBinding.FirstLoginExactly | packages/auth/src/tesla_personal_platform/auth/core.py:75-84 | a first login goes by the normalised address if it is verified; which refusal means what |
| IdentityBinding.RecordReadExactly | packages/auth/src/tesla_personal_platform/auth/firestore.py:44-74 | a document parses exactly as the record whose texts it holds, with a whole identity or none |
| IdentityBinding.BoundLoginExactly | packages/auth/src/tesla_personal_platform/auth/firestore.py:122-140 | on any database, exactly when a login by a binding is granted |
| IdentityBinding.FirstLoginGrantedExactly | packages/auth/src/tesla_personal_platform/auth/firestore.py:142-180 | on any database, exactly when a first login is granted |
| IdentityBinding.ResolveBoundIsDirect | packages/auth/src/tesla_personal_platform/auth/firestore.py:122-140 | a bound login on consistent collections meets no configuration error |
| IdentityBinding.LoginKeepsConsistent | packages/auth/src/tesla_personal_platform/auth/firestore.py:114-180 | a login keeps both collections mutually inverse, never moves a binding or identifier, writes nothing on error, and reaches no configuration-error branch |
| IdentityBinding.InviteKeepsConsistent | packages/auth/src/tesla_personal_platform/auth/firestore.py:255-296 | so does an invitation with fresh identifiers |
| IdentityBinding.StatusKeepsConsistent | packages/auth/src/tesla_personal_platform/auth/firestore.py:299-320 | so does activating or disabling |
| IdentityBinding.ResetKeepsConsistent | packages/auth/src/tesla_personal_platform/auth/firestore.py:323-351 | so does resetting an identity |
| IdentityBinding.RunKeepsConsistent | packages/auth/src/tesla_personal_platform/auth/firestore.py:255-351 | so does every run of logins and administrative actions; an address keeps its user and dataset identifiers |
| IdentityBinding.MutuallyInverse | packages/auth/src/tesla_personal_platform/auth/firestore.py:122-180 | an identity's binding names an address exactly if the record of that address carries the identity |
| IdentityBinding.LoginGrantedExactly | packages/auth/src/tesla_personal_platform/auth/firestore.py:114-180 | exactly which logins are granted and with which context |
| IdentityBinding.LoginIsStored | packages/auth/src/tesla_personal_platform/auth/firestore.py:142-180 | a granted login stores the identity in its user's record, binds it, and changes nothing else |
| IdentityBinding.InvitationIsStored | packages/auth/src/tesla_personal_platform/auth/firestore.py:255-296 | an invitation stores a disabled, unbound record or answers the one there is, and changes nothing else |
| IdentityBinding.StatusIsStored | packages/auth/src/tesla_personal_platform/auth/firestore.py:299-320 | a status change stores and answers the record with that status and changes nothing else |
| IdentityBinding.ResetIsStored | packages/auth/src/tesla_personal_platform/auth/firestore.py:323-351 | a reset stores and answers the record without its identity and removes exactly the binding it had |
| IdentityBinding.DisabledIsRefused | packages/auth/src/tesla_personal_platform/auth/firestore.py:77-90 | no login is granted for a disabled user or that user's dataset |
| IdentityBinding.DisablingDisables | packages/auth/src/tesla_personal_platform/auth/firestore.py:299-320 | a successful disabling disables |
| IdentityBinding.DisabledStaysOut | packages/auth/src/tesla_personal_platform/auth/firestore.py:114-351 | over every run that does not activate the address again, a disabled user stays disabled and is granted no login |
| IdentityBinding.ResetIdentityStartsOver | packages/auth/src/tesla_personal_platform/auth/firestore.py:323-351 | a reset identity is bound to nobody and is granted a login again only as a first login under the verified address of an active, unbound record |
| IdentityStores.FirestoreIdentityStore.ResolveOrBind | packages/auth/src/tesla_personal_platform/auth/firestore.py:114-180 | the login transaction applied in place equals its specification |
| IdentityStores.FirestoreIdentityStore.EnsureInvitation | packages/auth/src/tesla_personal_platform/auth/firestore.py:255-296 | the invitation transaction applied in place equals its specification |
| IdentityStores.FirestoreIdentityStore.SetStatus | packages/auth/src/tesla_personal_platform/auth/firestore.py:299-320 | the status transaction applied in place equals its specification |
| IdentityStores.FirestoreIdentityStore.ResetIdentity | packages/auth/src/tesla_personal_platform/auth/firestore.py:323-351 | the reset transaction applied in place equals its specification |
| IdentityStores.InMemoryIdentityStore.constructor | packages/auth/src/tesla_personal_platform/auth/memory.py:23-29 | indexes records by address and bindings by identity, both directions |
| IdentityStores.IndexedExactly | packages/auth/src/tesla_personal_platform/auth/memory.py:23-29 | under each address stands the last record given for it |
| IdentityStores.InMemoryIdentityStore.ResolveOrBind | packages/auth/src/tesla_personal_platform/auth/memory.py:31-61 | the login on dictionaries updated in place equals its specification |
| IdentityStores.IndexedCorresponds | packages/auth/src/tesla_personal_platform/auth/memory.py:23-29 | a store indexed from the records of a consistent database corresponds to it |
| IdentityStores.LoginAgrees | packages/auth/src/tesla_personal_platform/auth/memory.py:31-61 | from corresponding states one login gives the same context or error in both stores and corresponding states |
| IdentityStores.FakeIsFaithful | packages/auth/src/tesla_personal_platform/auth/memory.py:20-102 | so does every sequence of logins |
| IdentityStores.FakeGrantsExactly | packages/auth/src/tesla_personal_platform/auth/memory.py:31-102 | on any contents of the in-memory store, exactly which logins are granted |
| IdentityStores.FakeRefusesPartlyBound | packages/auth/src/tesla_personal_platform/auth/memory.py:31-102 | a partly bound record is a configuration error |
| IdentityStores.FakeStoresExactly | packages/auth/src/tesla_personal_platform/auth/memory.py:31-102 | and what they write |
| VehicleRegistry.VehicleRegistryStore.SyncVehicles | services/mcp-gateway/src/tesla_personal_platform/mcp_gateway/tesla_firestore.py:517-611 | two loops over buffered writes equal the specification, an error writes nothing, and each record returned says what Tesla reported of its vehicle |
| VehicleRegistry.VehicleRegistryStore.MarkMissing | services/mcp-gateway/src/tesla_personal_platform/mcp_gateway/tesla_firestore.py:597-610 | exactly the user's records of this connection that were not returned are marked |
| VehicleRegistry.VehicleRegistryStore.SaveFleetStatus | services/mcp-gateway/src/tesla_personal_platform/mcp_gateway/tesla_firestore.py:614-656 | succeeds exactly for the owner's active vehicle with the reported VIN and then changes its five status fields alone, keeping index and records in agreement; in every other case nothing changes |
| VehicleRegistry.SyncMeaning | services/mcp-gateway/src/tesla_personal_platform/mcp_gateway/tesla_firestore.py:517-611 | fails exactly if a returned VIN belongs to someone else; on success index and records agree, owners never change, telemetry fields survive, other users are untouched, and the connection's active vehicles are exactly those returned |
| VehicleRegistry.SyncedRecords | services/mcp-gateway/src/tesla_personal_platform/mcp_gateway/tesla_firestore.py:533-610 | after a sync the record of the last report under a VIN holds that report's identity and state, the key status, protocol, firmware, client version and keys of its fleet status or none, and the kept telemetry fields; a record not returned is marked, every other untouched |
| VehicleRegistry.MergedReports | services/mcp-gateway/src/tesla_personal_platform/mcp_gateway/tesla_firestore.py:548-566 | a merged record reads as paired or pending exactly as the fleet status says, otherwise as unknown, and takes every other reported value over |
| VehicleRegistry.BoundIdExactly | services/mcp-gateway/src/tesla_personal_platform/mcp_gateway/tesla_firestore.py:530-546 | which ID a VIN is bound to, and when it is refused |
| VehicleRegistry.SavedTelemetry | services/mcp-gateway/src/tesla_personal_platform/mcp_gateway/tesla_firestore.py:212-238 | saving a telemetry configuration rewrites the telemetry fields of one vehicle and nothing else |
| VehicleRegistry.ApplyAgrees | services/mcp-gateway/src/tesla_personal_platform/mcp_gateway/tesla_firestore.py:212-238 | synchronising, refreshing status and saving telemetry state each keep index and records in agreement |
| VehicleRegistry.RunKeepsOwners | services/mcp-gateway/src/tesla_personal_platform/mcp_gateway/tesla_firestore.py:517-656 | over every run of these by any users a VIN once indexed keeps its owner and vehicle ID |
| VehicleRegistry.RoutedExactly | services/telemetry-processor/src/tesla_personal_platform/telemetry_processor/gcp.py:57-109 | the consistency checks never reject an indexed VIN: it is routed exactly if its owner is an active user with a well-formed dataset, and then there |
| VehicleRegistry.WellFormedExactly | services/telemetry-processor/src/tesla_personal_platform/telemetry_processor/gcp.py:24-24 | a dataset is well-formed exactly if it is the prefix followed by one to eighty lower-case letters, digits or underscores |
| VehicleRegistry.TelemetryStaysWithItsOwner | services/telemetry-processor/src/tesla_personal_platform/telemetry_processor/gcp.py:57-109 | over any runs of both subsystems a VIN never moves to another user or dataset, and VINs share a dataset exactly if they share an owner |
| CallerPayload.AssertNoCallerIdentityClaims | packages/auth/src/tesla_personal_platform/auth/core.py:87-106 | terminates; accepts exactly the acceptable payloads; visits every node at most once, and each exactly once when it accepts |
| CallerPayload.Expand | packages/auth/src/tesla_personal_platform/auth/core.py:96-106 | queues a node's children unless one of its keys names a tenant |
| CallerPayload.CleanIsAcceptable | packages/auth/src/tesla_personal_platform/auth/core.py:87-106 | the recursive definition holds exactly if no path leads to a forbidden key or to a node deeper than 64 |
| CallerPayload.CleanByShape | packages/auth/src/tesla_personal_platform/auth/core.py:87-106 | value by value: no text key at any nesting folds into one of the seven names, and nothing is nested deeper than 64 |
| CallerPayload.ExpandedClean | packages/auth/src/tesla_personal_platform/auth/core.py:91-106 | replacing any pending node by its children keeps the verdict |
| CallerPayload.EveryOrderDecides | packages/auth/src/tesla_personal_platform/auth/core.py:87-106 | in whatever order pending nodes are visited, exactly the acceptable payloads are accepted |
| CommandAudit.Call.Request | packages/tesla-client/src/tesla_personal_platform/tesla_client/fleet.py:486-519 | without retries exactly one request; with them, at most the configured number of retries, each after a retryable reply only and as long as there is one, with doubling pauses |
| CommandAudit.PausesDouble | packages/tesla-client/src/tesla_personal_platform/tesla_client/fleet.py:508-517 | the client's pauses double from a quarter of a second |
| CommandAudit.Call.Operation | packages/tesla-client/src/tesla_personal_platform/tesla_client/fleet.py:466-484 | an unknown region sends nothing and is reported as such; otherwise the result is read from the one reply |
| CommandAudit.ParsedErrors | packages/tesla-client/src/tesla_personal_platform/tesla_client/fleet.py:551-573 | a reply reads as a re-authorization error exactly if its status is 401 |
| CommandAudit.RetryableExactly | packages/tesla-client/src/tesla_personal_platform/tesla_client/fleet.py:46-46 | which replies are worth another read |
| CommandAudit.ParsedExactly | packages/tesla-client/src/tesla_personal_platform/tesla_client/fleet.py:537-600 | exactly which replies are answers, and which show the vehicle online |
| CommandAudit.ParseErrorsExactly | packages/tesla-client/src/tesla_personal_platform/tesla_client/fleet.py:537-573 | the error each other reply is reported as, by status and body |
| CommandAudit.Call.Execute | packages/tesla-client/src/tesla_personal_platform/tesla_client/session.py:41-58 | at most two requests, a second one exactly if the first was answered 401 and a fresh credential could be had, the result read from the last; an error is that of the last reply or of a credential that could not be had |
| CommandAudit.Call.LiveVehicle | services/mcp-gateway/src/tesla_personal_platform/mcp_gateway/mcp_tools.py:379-383 | at most two requests, an online answer was observed, and an error has a cause |
| CommandAudit.Call.FinalizeAudit | services/mcp-gateway/src/tesla_personal_platform/mcp_gateway/mcp_tools.py:385-396 | one completion attempt; an indeterminate error exactly if it failed |
| CommandAudit.Call.EnsureVehicleOnline | services/mcp-gateway/src/tesla_personal_platform/mcp_gateway/mcp_tools.py:296-377 | success means the vehicle was seen online; at most 16 requests and 60 seconds; a begun wake audit is completed once; it fails only for cause |
| CommandAudit.Call.Poll | services/mcp-gateway/src/tesla_personal_platform/mcp_gateway/mcp_tools.py:359-377 | waits ten seconds before each of at most six looks, and gives up only after sixty seconds without an online answer |
| CommandAudit.Call.Attempt | services/mcp-gateway/src/tesla_personal_platform/mcp_gateway/mcp_tools.py:252-273 | a command that needs an unpaired key is refused and nothing is sent; otherwise the outcome says exactly whether Tesla accepted or refused, and an error is that of the last reply or failure, of a lost audit completion, or of a minute of waiting |
| CommandAudit.Call.ExecuteAudited | services/mcp-gateway/src/tesla_personal_platform/mcp_gateway/mcp_tools.py:225-294 | the trace is lawful; at most 18 requests and 60 seconds; every begun audit has its one completion attempt; a lost completion and an indeterminate error imply each other; the audit says what Tesla said; apart from the unpaired key, an error is always one that the trace shows a cause for |
| CommandAudit.WritesAreGuarded | services/mcp-gateway/src/tesla_personal_platform/mcp_gateway/mcp_tools.py:225-273 | in a lawful trace a write follows its begun audit and, for a command, an online observation, and repeats only after a 401 |
| CommandAudit.WritesAreNotTripled | packages/tesla-client/src/tesla_personal_platform/tesla_client/session.py:41-58 | and is never sent a third time |
| CommandAudit.AuditsArePaired | services/mcp-gateway/src/tesla_personal_platform/mcp_gateway/mcp_tools.py:317-357 | a completion attempt follows its begun record and is the only one for it; a wake is audited before it is sent |
| CommandAudit.WakesAreNeeded | services/mcp-gateway/src/tesla_personal_platform/mcp_gateway/mcp_tools.py:306-372 | the vehicle is woken and waited for only while it has not been seen online |
| CommandAudit.VerdictsAreTeslas | services/mcp-gateway/src/tesla_personal_platform/mcp_gateway/mcp_tools.py:283-289 | an audit says success only if Tesla accepted, rejected only if Tesla refused |
| CommandAudit.AuditMeaning | services/mcp-gateway/src/tesla_personal_platform/mcp_gateway/mcp_tools.py:225-396 | the summary's audits in terms of the events of the trace |
| CommandAudit.RequestMeaning | services/mcp-gateway/src/tesla_personal_platform/mcp_gateway/mcp_tools.py:225-396 | the summary's requests in terms of the events of the trace |
| CommandAudit.NewestMeaning | services/mcp-gateway/src/tesla_personal_platform/mcp_gateway/mcp_tools.py:225-396 | the write and the reply or failure the summary keeps last are the newest in the trace |
| CommandAudit.CompletionMeaning | services/mcp-gateway/src/tesla_personal_platform/mcp_gateway/mcp_tools.py:385-396 | so is the completion of each audit |
| CommandAudit.CountsMeaning | services/mcp-gateway/src/tesla_personal_platform/mcp_gateway/mcp_tools.py:225-396 | the summary's requests and pauses add up those of the trace |
| TelemetryConfig.ToPayload | packages/tesla-client/src/tesla_personal_platform/tesla_client/requests.py:39-52 | the dictionary filled in place leaves out exactly the absent attributes |
| TelemetryConfig.PrintedKeys | packages/tesla-client/src/tesla_personal_platform/tesla_client/requests.py:39-52 | which keys are printed, by name: absent attributes and empty lists are left out |
| TelemetryConfig.PrintedReads | packages/tesla-client/src/tesla_personal_platform/tesla_client/requests.py:39-52 | the payload holds, key by key, the configuration it was printed from |
| TelemetryConfig.ParseTeslaConfig | packages/tesla-client/src/tesla_personal_platform/tesla_client/telemetry.py:497-553 | the parsing loop equals its specification, errors included |
| TelemetryConfig.ParsedExactly | packages/tesla-client/src/tesla_personal_platform/tesla_client/telemetry.py:497-553 | key by key: exactly the documents that hold a configuration are read, as that configuration, and a missing or null one as none |
| TelemetryConfig.FieldReadExactly | packages/tesla-client/src/tesla_personal_platform/tesla_client/telemetry.py:518-541 | exactly the values that are the JSON of a field are read, as that field |
| TelemetryConfig.ParseErrorIsTrue | packages/tesla-client/src/tesla_personal_platform/tesla_client/telemetry.py:501-545 | each refusal names something wrong with the document |
| TelemetryConfig.FieldRoundTrip | packages/tesla-client/src/tesla_personal_platform/tesla_client/requests.py:338-363 | a printed field parses back, absent delta, resend interval and includes included |
| TelemetryConfig.PayloadRoundTrip | packages/tesla-client/src/tesla_personal_platform/tesla_client/telemetry.py:497-553 | a document holding the printed payload parses to the same configuration exactly if it has no expiry |
| TelemetryConfig.ParsedConfigsAreStable | packages/tesla-client/src/tesla_personal_platform/tesla_client/telemetry.py:497-553 | printing what was parsed from any document and parsing it again changes nothing |
| TelemetryConfig.PayloadIsInjective | packages/tesla-client/src/tesla_personal_platform/tesla_client/requests.py:39-52 | different configurations have different payloads |
| TelemetryDiff.SafeConfigDocument | packages/tesla-client/src/tesla_personal_platform/tesla_client/telemetry.py:457-494 | fails exactly if the bundle is unreadable or empty; flags exactly the bundles with a non-CA certificate |
| TelemetryDiff.CompareSections | packages/tesla-client/src/tesla_personal_platform/tesla_client/telemetry.py:566-579 | records exactly the sections that differ, the trust profile's name aside |
| TelemetryDiff.ConfigDiff | packages/tesla-client/src/tesla_personal_platform/tesla_client/telemetry.py:556-596 | fails exactly if a bundle is unreadable, otherwise equals the specified difference, whose meaning over the configurations is `TelemetryDiff.ConfigsInSyncExactly` |
| TelemetryDiff.FieldChangesArePatch | packages/tesla-client/src/tesla_personal_platform/tesla_client/telemetry.py:584-595 | the field changes lead from the current fields to the desired ones and back |
| TelemetryDiff.FieldChangesAreMinimal | packages/tesla-client/src/tesla_personal_platform/tesla_client/telemetry.py:584-595 | they name each differing field exactly once and nothing else |
| TelemetryDiff.InSyncExactly | packages/tesla-client/src/tesla_personal_platform/tesla_client/telemetry.py:556-596 | in sync exactly if the safe documents agree apart from the trust profile's name |
| TelemetryDiff.ConfigsInSyncExactly | packages/tesla-client/src/tesla_personal_platform/tesla_client/telemetry.py:457-596 | over the configurations themselves: in sync exactly if host, port, certificates and whether one is no CA, delivery policy and alerts agree and the same fields are configured with equal intervals, resend intervals and included fields and minimum deltas equal by value |
| TelemetryDiff.FieldDiffersExactly | packages/tesla-client/src/tesla_personal_platform/tesla_client/telemetry.py:584-595 | a field is reported exactly if only one side configures it or some setting of it differs |
| TelemetryDiff.SectionChangesExactly | packages/tesla-client/src/tesla_personal_platform/tesla_client/telemetry.py:566-579 | each of the five sections is reported exactly if it differs, the current value first |
| TelemetryDiff.AppliedConfigIsInSync | packages/tesla-client/src/tesla_personal_platform/tesla_client/telemetry.py:497-596 | a vehicle that reports back the payload it was sent is in sync, for every configuration |
| TelemetryProfile.BroadProfile | packages/tesla-client/src/tesla_personal_platform/tesla_client/telemetry.py:150-225 | the dictionaries edited in place end as the specified profile, or the partition error is raised; what that profile is, section by section, is `TelemetryProfile.FieldsExactly` |
| TelemetryProfile.FieldsExactly | packages/tesla-client/src/tesla_personal_platform/tesla_client/telemetry.py:183-203 | a field is configured exactly if it is added, overridden or kept from the baseline, self-driving fields only from version 1.2.0 on, and then as the addition, else the override, else the baseline defines it, with its included fields only from version 1.3.0 on |
| TelemetryProfile.OmissionsExactly | packages/tesla-client/src/tesla_personal_platform/tesla_client/telemetry.py:187-203 | exactly which fields and which lists of included fields are noticed as omitted for want of a capability |
| TelemetryProfile.PartitionExactly | packages/tesla-client/src/tesla_personal_platform/tesla_client/telemetry.py:364-391 | the sections are accepted exactly if the baseline has 93 fields, overrides and removals are about different ones of them, and additions and omissions split the rest of the catalog |
| TelemetryProfile.PartitionErrorIsTrue | packages/tesla-client/src/tesla_personal_platform/tesla_client/telemetry.py:364-391 | a refusal names something that is not so |
| TelemetryProfile.CatalogIsPartitioned | packages/tesla-client/src/tesla_personal_platform/tesla_client/telemetry.py:364-391 | every catalog field is configured, excluded or omitted for want of a capability, and only one of these |
| TelemetryProfile.NewerClientsGetMore | packages/tesla-client/src/tesla_personal_platform/tesla_client/telemetry.py:187-203 | a newer client never loses a field or an included field and never changes an interval or delta |
| TelemetryProfile.IncludesAreSupported | packages/tesla-client/src/tesla_personal_platform/tesla_client/telemetry.py:187-203 | no configured field includes a field the client lacks the capability for |
| TelemetryProfile.IncludedRemainConfigured | packages/tesla-client/src/tesla_personal_platform/tesla_client/telemetry.py:200-202 | the notice that included fields remain configured holds exactly if no field so noticed includes an excluded one |
| TelemetryProfile.IncludedMayBeExcluded | packages/tesla-client/src/tesla_personal_platform/tesla_client/telemetry.py:200-202 | accepted sections for which that notice is false |
| TelemetryControl.HasRelevantErrors | services/mcp-gateway/src/tesla_personal_platform/mcp_gateway/telemetry_control.py:602-621 | true exactly if a listed record is undated, unreadable or at most fifteen minutes old |
| TelemetryControl.CategoryExactly | services/mcp-gateway/src/tesla_personal_platform/mcp_gateway/telemetry_control.py:624-635 | the category each error is audited and reported under |
| TelemetryControl.ControlPlane.EligibleVehicle | services/mcp-gateway/src/tesla_personal_platform/mcp_gateway/telemetry_control.py:428-444 | only the user's active, paired vehicle is eligible; the refusal of inactive vehicles that follows reading the record is never reached |
| TelemetryControl.ControlPlane.EligibleExactly | services/mcp-gateway/src/tesla_personal_platform/mcp_gateway/telemetry_control.py:428-444 | eligible exactly if the vehicle is the user's, active and paired and the connection has both scopes, and what each refusal means |
| TelemetryControl.ControlPlane.CapabilityProfile | services/mcp-gateway/src/tesla_personal_platform/mcp_gateway/telemetry_control.py:446-466 | one status read; the plan is the broad profile of the client version just reported, which is at least 1.0.0, and otherwise the matching refusal |
| TelemetryControl.PlanExactly | services/mcp-gateway/src/tesla_personal_platform/mcp_gateway/telemetry_control.py:446-466 | a plan is made exactly for a client of version 1.0.0 or later, as that version's broad profile, and otherwise the matching refusal |
| TelemetryControl.ControlPlane.WaitUntilSynced | services/mcp-gateway/src/tesla_personal_platform/mcp_gateway/telemetry_control.py:468-499 | returns only on a confirmed document without recent errors; polls and pauses are bounded; nothing is sent; an error is a fault, a recent error reported, a last document that cannot be read, or a timeout whose every read confirmed nothing |
| TelemetryControl.ConfirmedMeaning | services/mcp-gateway/src/tesla_personal_platform/mcp_gateway/telemetry_control.py:482-496 | a confirmed vehicle streams exactly the planned fields, every setting as planned, to the deployment's host and trusts exactly its certificates, all of them CAs |
| TelemetryControl.PlanIsSentWhole | packages/tesla-client/src/tesla_personal_platform/tesla_client/telemetry.py:105-113 | the configuration sent carries the plan unchanged to the deployment's host and has no expiry |
| TelemetryControl.HashIdentifiesPlan | packages/tesla-client/src/tesla_personal_platform/tesla_client/telemetry.py:445-454 | two plans have the same hash exactly if profile, fields, host, port and trust agree |
| TelemetryControl.SyncedStateExactly | services/mcp-gateway/src/tesla_personal_platform/mcp_gateway/telemetry_control.py:244-253 | what is stored once a plan is confirmed |
| TelemetryControl.ControlPlane.Deploy | services/mcp-gateway/src/tesla_personal_platform/mcp_gateway/telemetry_control.py:232-258 | sends the plan first and once, and nothing else, stores it only once confirmed, and fails only for cause, success meaning that nothing did |
| TelemetryControl.ControlPlane.Apply | services/mcp-gateway/src/tesla_personal_platform/mcp_gateway/telemetry_control.py:207-267 | nothing happens without confirmation and eligibility; a plan other than the expected one is refused as stale, and an audit is begun or anything sent only if the plan just read is the expected one; success means confirmed and stored; it fails only for cause |
| TelemetryControl.ControlPlane.ApplyPlan | services/mcp-gateway/src/tesla_personal_platform/mcp_gateway/telemetry_control.py:231-261 | nothing is sent without an audit, and under one the plan once; completing it is attempted once, and it never says succeeded wrongly |
| TelemetryControl.ControlPlane.VerifyConfig | services/mcp-gateway/src/tesla_personal_platform/mcp_gateway/telemetry_control.py:269-309 | repairs the stored state of a confirmed vehicle, keeping its opt-in, sends nothing, and fails only for cause |
| TelemetryControl.ControlPlane.RemoveConfig | services/mcp-gateway/src/tesla_personal_platform/mcp_gateway/telemetry_control.py:311-340 | deletes once under an audit and stores the removed state, and fails only if a dependency did |
| TelemetryControl.ControlPlane.ReconcileOne | services/mcp-gateway/src/tesla_personal_platform/mcp_gateway/telemetry_control.py:379-418 | one vehicle's turn never changes its stored field selection, leaves a vehicle without opt-in alone, and only reads a vehicle whose fields drifted; an opted-in vehicle whose planned fields are the stored ones is synced, or its line carries the category of an error, not a fatal one, that applying had to fail with; it stops the reconciliation only for a fault, a plan that could not be made, or a fatal refusal |
| TelemetryControl.ControlPlane.CanaryFirst | services/mcp-gateway/src/tesla_personal_platform/mcp_gateway/telemetry_control.py:365-376 | the user's active vehicles, each once, the canary in front |
| TelemetryControl.ControlPlane.ReconcileOptedInTransport | services/mcp-gateway/src/tesla_personal_platform/mcp_gateway/telemetry_control.py:361-426 | on every exit no stored field selection has changed and no other vehicle was touched unless the canary was confirmed and stored; ready means every active vehicle is stored as synced under the current trust profile after confirmation; with an active canary it stops only for a cause at some active vehicle |

## Left out

- ViewReconciler.Reconcile: if the widening update reports a failure after taking effect, the source never enters the block that restores the list, and the contract says no more than that the list is then the permanent one or the widened one.
- ViewCatalog.Dataset.CreateTable: a creation that takes effect and then raises is outside the fault model, because the source does not record it for undo.
- ViewCatalog.Dataset.UpdateTable: replaces the label map, and does not model a service that merges labels on update.
- ViewManifest.AnalyticsViews: a template is an arbitrary function of the prefix, and the SQL parser's result is part of its value; identifier checks and the generated rows of single templates are not modelled.
- CertificateRelease.EveryMomentIsSafe: covers runs that do not overlap; overlapping ones appear only in the lemmas named above.
- CertificateRelease.Candidate: certbot, the state archive and X.509 parsing are a nondeterministic source of material.
- CertificateRelease.Edge.Deploy: the guest status is the set of boot markers its text contains, each a release number and the first digits of a digest.
- CertificateRelease.Renew: a crash, the verification of a candidate against the trust profile and a failing read of the profiles are one nondeterministic interruption.
- TokenRotation.ChainIsNeverCut: the server never revokes a token it has not rotated.
- IdentityBinding.InviteKeepsConsistent: identifiers drawn at random are assumed not to have been used before.
- IdentityStores.InMemoryIdentityStore.constructor: every record has a valid address; the source raises otherwise. `replace_user`, a test-only override, is not modelled.
- Email.NormalFormExactly: white space and case folding are those of ASCII.
- VehicleRegistry.RoutedExactly: an index entry with an empty vehicle ID, which cannot arise, counts as unrouted.
- CommandAudit.Call.ExecuteAudited: an audit record whose creation was reported as failed counts as not begun, even if it took effect. Argument checks before the audit, redaction and serialisation are not modelled.
- CommandAudit.Call.Request: the client's own backoff is modelled for state reads; the tools here never use it.
- TelemetryConfig.ParseTeslaConfig: a truth value given as a port is read as 0 or 1, to which it is equal in the source language; floats are real numbers, without infinities.
- TelemetryDiff.SafeConfigDocument: certificates are loaded by a parameter, and the digest of sorted certificates is their multiset.
- TelemetryProfile.BroadProfile: section loading is the predicate it establishes; rationales, the baseline comparison document and the version pattern are not modelled.
- TelemetryControl.ControlPlane.Apply: one operation may stand for two requests, as in `CommandAudit.Call.Execute`.
- TelemetryControl.ControlPlane.ReconcileOptedInTransport: vehicle records and scopes do not change during the call.
- `inspect`, error redaction and the report documents of the control plane are plain projections.
- SHA-256, AEAD encryption and stable identifiers are injective constructors.
- `BigQueryDatasetProvisioner`, `list_vehicles` paging, browser and OAuth pages, JWT verification, log redaction, settings, the telemetry processor's delivery loop and the command request classes would add only easy members.
