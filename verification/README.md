# Deployment protocols, verified

A Dafny model of the parts of SecPal's deployment scripts that keep a promise when an operation
stops half way, loses its acknowledgement or is run again, with proofs of those promises.
Each module follows one component:

| modules | component | what is promised |
|---|---|---|
| `DurableDirectory`, `Publication`, `Publisher` | journalled publication of one served file | a crash at any step, and any number of interrupted recoveries, end in the predecessor or in an activated candidate |
| `Cidr`, `PrefixLkg` | address blocks and the accepted CloudFront prefixes | block containment is exact; accepted publications never go back |
| `HostFirewallPolicy`, `HostFirewall` | the host's ingress rules and their controller | what every packet meets; kernel and accepted file stay in step; management is never locked out |
| `Enrollment`, `EnrollmentAuthority` | single-use grants pinned outside the database | one credential per grant, over crashes and database restores |
| `EndpointSwitch` | compare-and-switch with late effects | one operation changes routing at most once; every report is true |
| `AuditRecords`, `AvcNormalizer`, `AvcDecision`, `AvcDiagnostic`, `AvcProjector`, `AvcAgreement`, `AvcStray` | two correlators of one denial and a validator | they admit the same denials, and where they differ exactly |
| `ViewerTls`, `ViewerPublication` | certificate renewals and their receipt, over the publisher | without a journal the receipt names what is served |
| `DirectRouting` | the HTTP rules of the edge | who reaches which backend |
| `DirectSpec`, `DirectText`, `DirectLength`, `Decimals`, `Json`, `DirectConfig` | a configuration inside its own rendering | printing and reading are inverse, every rendering fits, and the rules it holds are those of `DirectRouting` |
| `ProviderFirewall` | plan, change, verify and roll back at a provider | what a verified end means in every run, and which requests can never take effect any more |
| `StreamAdapter` | framed delivery over a stream | the receiver reads every delivered envelope |

`Common` holds the shared vocabulary. `dafny verify dfyconfig.toml` checks everything.

## How failure is modelled

A step of the outside world chooses its own outcome: it may fail, take effect without being
acknowledged, or be the last step before the process stops. `Publisher` records the disk after
every step, with the operations each directory has not yet synced; a crash picks a recorded step
and keeps any prefix of those operations. `HostFirewall` needs no separate interruption: nothing
happens after an unhandled failure, so stopping leaves what a failure of the next call leaves.
`EndpointSwitch` lets everybody else act between any two steps of an executor; `ProviderFirewall`
does the same between two calls of its contract, and no result has to say what really happened.
`ViewerTls` takes the fate of every step from a schedule, so that a run can be named. Counters of faults
state what holds when exactly one step, or none, goes wrong. SHA-256 is a constructor, hence
injective; a signature is the pair of key and message that only its verifier compares.

## Results that depend on a condition

* A diagnostic for an observation with an unreadable record is only accepted by its own validator
  when no denial record came first: the count of denial records is already in the document, and a
  document without events must not have one (`AvcAgreement.UnreadAccepted`,
  `AvcAgreement.MalformedAfterDenial`).
* The diagnostic refuses some observations the strict reading admits: those where another event
  repeats a system call of its only readable pid although it holds no matching denial
  (`AvcAgreement.Agreement`; six records that do it are in `AvcStray.StrictAdmitsDiagnosticRefuses`).
* Renewal sets the accepted receipt aside before publication looks for a pending journal. Started
  over a pending publication whose acceptance was already written, it overwrites the receipt that
  recovery needs, and recovery then stops after restoring the certificate. It is still never true
  that a journal is gone and the receipt wrong. `ViewerTls.Viewer.Deploy` states the exact condition,
  `ViewerTls.Viewer.RenewOverPending` is the run; the renewal command checks for the journal itself,
  the deploy action does not.
* An adapter that reports `already-satisfied` while a fresh read shows the desired policy passes
  verification and is refused by recovery (`ProviderFirewall.RecoveryAgreesWithVerify`; the run is
  `ProviderFirewall.SatisfiedYetUnrecoverable`).
* The challenge guards look at the decoded path, and a malformed percent escape has none. Such a
  target under the challenge prefix is not refused but routed like any other
  (`DirectRouting.MalformedEscapeRouted`; `DirectRouting.MalformedExample` is one). It never reaches
  the challenge backend (`DirectRouting.ChallengesOnly`).
* A provider change whose recovery verified the prior policy can still take effect afterwards if it
  is pending and the fresh read found the very revision the change was planned on
  (`ProviderFirewall.PriorVerifiedStands`; the run is `ProviderFirewall.PriorVerifiedThenChanged`).
  After a verified change and after a verified rollback this is impossible.

## Model

| member | source | states |
|---|---|---|
| `Publisher.Publisher.Publish` | scripts/haproxy_config_lifecycle.py:89-173 | From admission to cleanup: a refusal before the exchange leaves serving alone; True means the candidate is served, was reloaded and no journal remains; with exactly one failed step serving is the previous content, and after any number of them the journal is gone or restores it |
| `Publisher.Publisher.RecoverPublication` | scripts/haproxy_config_lifecycle.py:55-86 | Recovery restores exactly the content the journal records (absent for a first install), completes whenever no step fails, and leaves every interruption point recoverable |
| `Publisher.Publisher.RecoverThroughCrashes` | scripts/haproxy_config_lifecycle.py:55-86 | Interrupted any number of times at any step, then run to its end, recovery still restores the predecessor exactly |
| `Publisher.Publisher.PublishThroughCrashes` | scripts/haproxy_config_lifecycle.py:55-173 | A publication cut off at any step, followed by recoveries that may be cut off too: serving ends as the predecessor if the journal survived, otherwise as the predecessor or a candidate whose reload succeeded |
| `Publisher.Publisher.Run` | scripts/haproxy_config_lifecycle.py:55-173 | Over any sequence of publications and recoveries, each cut off by a power loss at any step or let run: without a journal the served content is the first one or one whose reload succeeded, and a journal restores such a content |
| `Publisher.Publisher.Crash` | scripts/haproxy_config_lifecycle.py:9-12 | A power loss after any step keeps some prefix of each directory's unsynced operations; whatever it keeps is sound |
| `Publisher.Publisher.Stage` | scripts/haproxy_config_lifecycle.py:30-43 | A staged file holds exactly the given content or nothing is left of it |
| `Publisher.Publisher.Admit` | scripts/haproxy_config_lifecycle.py:97-111 | Exactly which requests publish refuses before touching anything: size, mode, a pending journal, a first install over served content |
| `Publisher.Publisher.ReadJournal` | scripts/haproxy_config_lifecycle.py:64-78 | A journal is readable exactly when its record is admitted and its backup hashes to the recorded predecessor |
| `Publisher.Publisher.WriteJournal` | scripts/haproxy_config_lifecycle.py:121-130 | After the journal is durable every later state can restore the predecessor |
| `Publisher.Publisher.Exchange` | scripts/haproxy_config_lifecycle.py:121-167 | The rename of the candidate and everything guarded by the compensation path, stated for success, failure and pending first installs |
| `Publisher.Publisher.Activate` | scripts/haproxy_config_lifecycle.py:132-143 | Reload and journal removal: reported success implies both happened |
| `Publisher.Publisher.Compensate` | scripts/haproxy_config_lifecycle.py:144-167 | The exception path: predecessor first, journal kept or rewritten until the compensating reload has run |
| `Publisher.Publisher.Cleanup` | scripts/haproxy_config_lifecycle.py:168-173 | The backup is dropped only when no journal needs it |
| `Publication.ServingStep` | scripts/haproxy_config_lifecycle.py:131-148 | An operation on the serving name keeps every crash image sound while the journal is durable |
| `Publication.JournalStep` | scripts/haproxy_config_lifecycle.py:121-130 | An operation on the journal names keeps every crash image sound |
| `Publication.SyncSound` | scripts/haproxy_config_lifecycle.py:22-27 | Making a directory durable only shrinks what a crash can leave |
| `Publication.EveryCrashHandled` | scripts/haproxy_config_lifecycle.py:22-27 | Every crash image of a sound snapshot stands for one accepted content, restored from its journal or served without one, and is again sound for it |
| `Publication.RestoresUnique` | scripts/haproxy_config_lifecycle.py:64-81 | A journal determines one predecessor: recovery is deterministic |
| `Publication.ExchangeNeedsJournal` | scripts/haproxy_config_lifecycle.py:121-131 | Why the journal is written first: without it a concrete exchange leaves a crash image that serves an unaccepted candidate with nothing to restore |
| `DurableDirectory.SharedDirectory` | scripts/haproxy_config_lifecycle.py:55-86 | One directory's crash prefix is a prefix of each part of it: two independent directories lose no crash outcome |
| `Cidr.CoveredByOne` | scripts/host-firewall.py:137-142 | The management test is exact: a block is covered by a set of collapsed blocks if and only if it lies inside one of them |
| `Cidr.Collapse` | scripts/host-firewall.py:137-139 | collapse_addresses covers the same addresses with no two halves left to merge |
| `Cidr.AscendingUnique` | scripts/cloudfront-origin-prefix-lkg.py:136-160 | A set of networks has one ascending list: published order is canonical |
| `Cidr.Sort` | scripts/cloudfront-origin-prefix-lkg.py:136-160 | The ascending list of exactly the selected networks |
| `PrefixLkg.SelectPrefixes` | scripts/cloudfront-origin-prefix-lkg.py:136-160 | Selection succeeds exactly for well-formed rows with a non-empty, repeat-free selection, and then holds exactly the selected networks |
| `PrefixLkg.BuildCandidate` | scripts/cloudfront-origin-prefix-lkg.py:163-184 | A candidate is built exactly from admissible documents, and what is built validates |
| `PrefixLkg.SuccessionIsPreorder` | scripts/cloudfront-origin-prefix-lkg.py:473-503 | Publication succession is reflexive on valid candidates and transitive |
| `PrefixLkg.BeyondExtends` | scripts/cloudfront-origin-prefix-lkg.py:473-503 | Accepting an admitted successor keeps versions monotone and equal versions equal over the whole history |
| `PrefixLkg.Store.WriteCandidate` | scripts/cloudfront-origin-prefix-lkg.py:457-462 | Exactly valid candidates are written, and writing never touches the accepted publication |
| `PrefixLkg.Store.AcceptCandidate` | scripts/cloudfront-origin-prefix-lkg.py:506-519 | Exactly the acknowledged, admitted candidate is promoted; the accepted history stays monotone whatever the write's fate |
| `PrefixLkg.Store.PowerLoss` | scripts/cloudfront-origin-prefix-lkg.py:374-416 | A restart forgets at most an unconfirmed acceptance |
| `HostFirewallPolicy.BuildPolicy` | scripts/host_firewall_contract.py:76-135 | The rule list as it is appended, admitted exactly for a configuration in scope |
| `HostFirewallPolicy.PolicyMeaning` | scripts/host_firewall_contract.py:76-135 | For every packet and remediation state the whole list accepts exactly what the stated decision admits |
| `HostFirewallPolicy.TcpOriginalDirection` | scripts/host_firewall_contract.py:93-135 | A new or established TCP packet in the original direction is accepted exactly as management to 22, or unremediated to 80/443 (DIRECT) or from an accepted prefix to 443 (PROTECTED) |
| `HostFirewallPolicy.NoSurvivingConnections` | scripts/host_firewall_contract.py:114-119 | Being an established connection opened by the peer earns nothing under any later policy |
| `HostFirewallPolicy.NothingInTransit` | scripts/host_firewall_contract.py:80-83 | No packet is ever forwarded |
| `HostFirewallPolicy.RemediationSparesProtected` | scripts/host_firewall_contract.py:105-113 | Blocking unprotected peers changes nothing for management or accepted origins |
| `HostFirewallPolicy.BuildBatch` | scripts/host_firewall_contract.py:138-147 | The command batch for a first install and for a replacement |
| `HostFirewallPolicy.BatchInstalls` | scripts/host_firewall_contract.py:138-147 | Executed atomically, the first batch creates exactly the policy from nothing and the other replaces any policy by exactly the new one |
| `HostFirewallPolicy.NormalizeTable` | scripts/host_firewall_contract.py:150-167 | A listing is normalised exactly when every row is admitted, to its objects in order |
| `HostFirewallPolicy.ListingReadsBack` | scripts/host_firewall_contract.py:150-167 | Whatever handles the kernel assigns, normalising its listing gives back exactly the table |
| `HostFirewallPolicy.Remediation` | scripts/host_firewall_contract.py:175-190 | A peer may be blocked exactly when the scope, address and lifetime are admitted and no protected network covers it |
| `HostFirewall.Controller.Apply` | scripts/host-firewall.py:179-204 | Success means the kernel enforces the policy and the file records it; kernel and file are each old or new at every end, the file never ahead; an admissible apply without faults succeeds, and stays admissible after any failure |
| `HostFirewall.Controller.CommitPolicy` | scripts/host-firewall.py:206-216 | Whatever the acknowledgement, success means the exact policy was read back; without a fault it succeeds |
| `HostFirewall.Controller.Save` | scripts/host-firewall.py:150-157 | The record is replaced whole or not at all, and confirmed only when durable |
| `HostFirewall.Controller.Restore` | scripts/host-firewall.py:218-229 | Restoring installs exactly the accepted policy into an absent table and nothing into a present one |
| `HostFirewall.Controller.Check` | scripts/host-firewall.py:231-236 | Succeeds, without faults, exactly when kernel and file agree and every decision is admissible |
| `HostFirewall.Controller.AdmitDecisions` | scripts/host-firewall.py:159-177 | Every element of both sets is within bounds and outside the document's protected networks, while elements keep expiring |
| `HostFirewall.Controller.Remediate` | scripts/host-firewall.py:238-268 | Success is independent of the acknowledgement, is read back, and changes only the requested element |
| `HostFirewall.Controller.ReadBack` | scripts/host-firewall.py:258-263 | Without a fault, true exactly when the element is as requested |
| `HostFirewall.ManagementTransition` | scripts/host-firewall.py:130-142 | Refuses exactly the configurations that would lose a management address or a DHCP uplink |
| `HostFirewall.Controller.Same` | scripts/host-firewall.py:123-127 | True exactly when the normalised listing is the document's policy |
| `HostFirewall.Controller.Operate` | scripts/host-firewall.py:145-268 | Any sequence of operations, failures and restarts keeps the controller's invariant; accepted history and publications only grow |
| `HostFirewall.Controller.NoManagementLockout` | scripts/host-firewall.py:130-142 | In every reachable kernel state each address of any configuration ever confirmed, or recorded now with its sync unconfirmed, still reaches port 22 |
| `HostFirewall.Controller.NoUplinkLockout` | scripts/host-firewall.py:134-135 | In every reachable kernel state DHCP replies on every uplink of such a configuration are still admitted |
| `HostFirewall.Controller.ProtectedNeverRemediated` | scripts/host-firewall.py:159-177 | In every reachable state no remediation element touches a peer the enforced policy protects |
| `HostFirewall.UpholdsExtends` | scripts/host-firewall.py:187-192 | An admitted successor document keeps every earlier accepted management address and the publication order, across DIRECT as well |
| `Enrollment.GenerationsAreOneToN` | scripts/host_enrollment.py:867-888 | In each resource slot the enrolled generations are exactly 1..n, each once |
| `Enrollment.EnrollmentsAgree` | scripts/host_enrollment.py:879-887 | Any two enrollments sharing a key or a host id agree on host, key, machine, resource, role, deployment and incarnation |
| `Enrollment.OneGrantPerGeneration` | scripts/host_enrollment.py:951-993 | Of several grants for one generation at most one is ever consumed |
| `Enrollment.GrantingGrows` | scripts/host_enrollment.py:890-915 | Issuing a grant keeps the database sound and strictly extends it |
| `Enrollment.EnrollingGrows` | scripts/host_enrollment.py:951-993 | Consuming a grant keeps the database sound and strictly extends it: contents never repeat |
| `EnrollmentAuthority.PinMeansLatest` | scripts/host_enrollment.py:833-851 | A pin that matches a committed database matches the latest one only: a rolled-back database is refused |
| `EnrollmentAuthority.Previous` | scripts/host_enrollment.py:862-865 | The slot's row of the highest generation, if there is one |
| `EnrollmentAuthority.AdmitKey` | scripts/host_enrollment.py:879-887 | Refuses exactly a key or host id already bound elsewhere |
| `EnrollmentAuthority.Generation` | scripts/host_enrollment.py:867-888 | The next generation of the slot, exactly for an eligible purpose and an uncopied key |
| `EnrollmentAuthority.Authority.Begin` | scripts/host_enrollment.py:833-846 | A transaction opens only on the database last committed, exactly as pinned |
| `EnrollmentAuthority.Authority.Commit` | scripts/host_enrollment.py:847-851 | The pin is published before the commit; wherever this stops, the pin is never behind the database |
| `EnrollmentAuthority.Authority.Issue` | scripts/host_enrollment.py:890-915 | A grant is issued for the next generation over an unrepeated id, exactly under the stated conditions while the clock stands still |
| `EnrollmentAuthority.Authority.AdmitGrant` | scripts/host_enrollment.py:890-915 | Every check before a grant is recorded, and the grant as it would be issued; without faults exactly the issuable ones pass |
| `EnrollmentAuthority.Authority.AdmitConsumption` | scripts/host_enrollment.py:951-981 | Everything checked before a certificate is signed, exactly under the stated conditions while the clock stands still |
| `EnrollmentAuthority.Authority.Consume` | scripts/host_enrollment.py:951-993 | A credential is returned for a grant never returned before; the new row, possession proof and lifetime are as stated, exactly under the stated conditions while the clock stands still |
| `EnrollmentAuthority.Authority.CurrentIdentity` | scripts/host_enrollment.py:1027-1039 | The slot's latest authenticated registration in this scope |
| `EnrollmentAuthority.Authority.Restore` | scripts/host_enrollment.py:833-851 | Restoring any earlier committed database makes every later transaction refuse |
| `EnrollmentAuthority.Authority.PowerLoss` | scripts/host_enrollment.py:254-264 | A pin whose directory sync was never confirmed may be lost without harm |
| `EnrollmentAuthority.Authority.Run` | scripts/host_enrollment.py:809-1039 | Over any run of grants, consumptions, crashes, restores and power losses each grant's credential is returned at most once |
| `EnrollmentAuthority.Authority.Initialize` | scripts/host_enrollment.py:775-806 | A fresh authority is sound, current and empty |
| `EnrollmentAuthority.Authority.ReadRegistration` | scripts/host_enrollment.py:1161-1167 | True, without faults, exactly when the identity is the slot's current registration, with the key and machine registered for it |
| `EnrollmentAuthority.Authority.Authenticate` | scripts/host_enrollment.py:1149-1186 | Success means the identity is the current registration at the final reading, whatever the authority did in between, and its key signed the fresh challenge; undisturbed, an authentic identity is accepted |
| `EnrollmentAuthority.LocalHost.Accept` | scripts/host_enrollment.py:602-621 | A host replaces its credential only by recovery to a higher generation, bound to its own identity |
| `EndpointSwitch.AssessTrustsOnlyItsEvidence` | scripts/endpoint_switch.py:173-195 | Applied is reported exactly on native evidence, rejected exactly on a final refusal that nothing contradicts |
| `EndpointSwitch.System.Execute` | scripts/endpoint_switch.py:218-258 | With others acting between any two steps: applied means this plan landed by this dispatch, already satisfied means it took effect, rejected means this invocation never mutates anything |
| `EndpointSwitch.System.DispatchOnce` | scripts/endpoint_switch.py:236-258 | From the claim on: at most one dispatch, judged by a fresh read |
| `EndpointSwitch.System.Reconcile` | scripts/endpoint_switch.py:198-215 | Observation only: no dispatch, no inferred rejection |
| `EndpointSwitch.System.RequestClaim` | scripts/endpoint_switch.py:135-141 | An operation id is bound to one whole plan and granted once |
| `EndpointSwitch.System.CompareAndSwitch` | scripts/endpoint_switch.py:123-124 | One dispatch; a rejection is final |
| `EndpointSwitch.System.Inspect` | scripts/endpoint_switch.py:153-162 | A usable read is the endpoint's current native state |
| `EndpointSwitch.LandsAtMostOnce` | scripts/endpoint_switch.py:119-141 | Over every run one operation changes routing at most once |
| `EndpointSwitch.SupersededNeverLands` | scripts/endpoint_switch.py:119-141 | Once the observed generation differs from the plan's, a pending dispatch never lands in any run |
| `EndpointSwitch.RefusedNeverLands` | scripts/endpoint_switch.py:36-40 | A refused dispatch never lands in any run |
| `EndpointSwitch.RunFollows` | scripts/endpoint_switch.py:119-141 | Every run of steps keeps the invariant and everything that is never taken back |
| `EndpointSwitch.CommittedTookEffect` | scripts/endpoint_switch.py:165-170 | A state that looks committed is the landing of a switch under that operation |
| `AuditRecords.PidSpelling` | scripts/selinux_isolation_contract.py:205-231 | A valid pid has exactly one spelling: comparing text and comparing numbers agree |
| `AvcNormalizer.Normalize` | scripts/selinux_isolation_contract.py:989-1044 | Exactly which observations the strict reading admits, with which event and pid, and which it calls unmatched |
| `AvcNormalizer.CandidatesDecide` | scripts/selinux_isolation_contract.py:1001-1034 | Without ambiguous events, the number of candidates decides |
| `AvcDecision.DecideEvent` | scripts/selinux_isolation_contract.py:392-464 | Candidacy, rejection facts and exact pids of one event |
| `AvcDecision.OrderedKeepsFacts` | scripts/selinux_isolation_contract.py:212-215 | Ordering rejection facts loses none and is canonical |
| `AvcDiagnostic.Finalize` | scripts/selinux_isolation_contract.py:467-519 | The counts, outcome and facts over all events |
| `AvcDiagnostic.FinalizedAlike` | scripts/selinux_isolation_contract.py:467-519 | The decision depends on the observations alone |
| `AvcDiagnostic.FinalizeIdempotent` | scripts/selinux_isolation_contract.py:467-519 | Finalising twice changes nothing |
| `AvcDiagnostic.Validate` | scripts/selinux_isolation_contract.py:715-986 | Accepts exactly the closed, consistent documents that recomputing leaves unchanged |
| `AvcProjector.ScanPasses` | scripts/selinux_isolation_contract.py:568-664 | Reading stops nowhere exactly when every record is well formed and every bound holds |
| `AvcProjector.ProjectRecord` | scripts/selinux_isolation_contract.py:568-664 | One record: why reading stops, or the projection extended by it |
| `AvcProjector.CaptureResult` | scripts/selinux_isolation_contract.py:285-322 | A capture without records is returned exactly when its own document validates |
| `AvcProjector.DiagnoseLines` | scripts/selinux_isolation_contract.py:557-683 | The diagnostic of decoded lines, or a refusal by the validator |
| `AvcProjector.Diagnose` | scripts/selinux_isolation_contract.py:522-683 | The diagnostic of any payload, or a refusal by the validator |
| `AvcAgreement.Agreement` | scripts/selinux_isolation_contract.py:467-519 | Admitted exactly when the strict reading proves one denial and no event repeats a call of a pid that is not the denial's |
| `AvcAgreement.SameDenial` | scripts/selinux_isolation_contract.py:989-1044 | Both readings name the same event and pid |
| `AvcAgreement.DiagnosisAdmitted` | scripts/selinux_isolation_contract.py:522-683 | Exactly when the diagnostic of an arbitrary observation is admitted |
| `AvcAgreement.SameEvent` | scripts/selinux_isolation_contract.py:392-464 | One event's candidacy and ambiguity agree between facts and text |
| `AvcAgreement.ObservedAccepted` | scripts/selinux_isolation_contract.py:715-986 | Every records-observed document within the size bound passes the validator |
| `AvcAgreement.UnreadAccepted` | scripts/selinux_isolation_contract.py:584-609 | A document cut short by a malformed record is accepted if and only if no denial record came first |
| `AvcAgreement.MalformedAfterDenial` | scripts/selinux_isolation_contract.py:584-592 | A denial record followed by an unreadable line: the document built for it is refused |
| `AvcStray.StrictAdmitsDiagnosticRefuses` | scripts/selinux_isolation_contract.py:392-519 | Six records, one proven denial and a permissive one whose call is repeated: the strict reading admits them, and the document returned for any payload of them refuses them |
| `AvcAgreement.TotalsExact` | scripts/selinux_isolation_contract.py:882-960 | The projected events account for every record and every denial record once |
| `AvcAgreement.CapturedAccepted` | scripts/selinux_isolation_contract.py:785-862 | A capture without records is accepted exactly when its attempt, sizes and statuses are in bounds and its outcome agrees with them: no result means status 1 over an empty observation, an execution error anything else |
| `ViewerTls.Viewer.Deploy` | scripts/direct-viewer-tls.py:371-414 | A renewal with at most one fault leaves either a true receipt or a recoverable journal; over a pending journal it changes neither journal, certificate nor receipt, keeps recovery possible under the stated condition whatever fails, and without faults only under it |
| `ViewerTls.Viewer.Publish` | scripts/direct-viewer-tls.py:408 | The publication as the renewal uses it: its ends for the serving name, the journal and the receipt |
| `ViewerPublication.Publish` | scripts/haproxy_config_lifecycle.py:89-173 | Those ends are the publisher's: after at most one failed step, and when the power goes at any step with any part of the unsynced operations kept |
| `ViewerTls.Viewer.Switch` | scripts/direct-viewer-tls.py:396-408 | From the durable journal on: done, undone or recoverable |
| `ViewerTls.Viewer.Activate` | scripts/direct-viewer-tls.py:396-399 | The receipt is written last, and only for a reloaded and verified certificate |
| `ViewerTls.Viewer.Recover` | scripts/direct-viewer-tls.py:606-632 | Interrupted any number of times, recovery ends with predecessor and receipt together; without faults it completes exactly when the kept receipt is the predecessor's, and no run of it completes otherwise; an interrupted first installation is taken back whole |
| `ViewerTls.Viewer.RenewOverPending` | scripts/direct-viewer-tls.py:384-414 | The run behind the condition: a renewal stopped after its acceptance, a faultless second one, and then no recovery, however often and with whatever faults, ever completes |
| `ViewerTls.Viewer.Operate` | scripts/direct-viewer-tls.py:371-414 | Over any run, no journal means the receipt names what is served and the first acceptance is kept; guarded renewals keep recovery possible |
| `DirectRouting.RoutingMeaning` | scripts/haproxy_direct_contract.py:225-273 | The rules in their rendered order give every request exactly the stated decision, with and without trusted proxies in front |
| `DirectRouting.NoPlaintextProduct` | scripts/haproxy_direct_contract.py:236-257 | No plaintext request reaches a product backend |
| `DirectRouting.ChallengesOnly` | scripts/haproxy_direct_contract.py:236-262 | The challenge backend receives exactly the admitted plaintext GETs of an exact 43-character challenge path |
| `DirectRouting.ProductsOnly` | scripts/haproxy_base_contract.py:168-171 | A product backend receives exactly its own origin's admitted TLS requests that do not decode to a challenge path, so each goes to one |
| `DirectRouting.MalformedEscapeRouted` | scripts/haproxy_direct_contract.py:236-246 | A target with a malformed percent escape meets none of the challenge guards; over TLS it goes to its own origin's backend |
| `DirectRouting.TargetIsGuarded` | scripts/haproxy_direct_contract.py:239-246 | The exact challenge path always falls under the guarded prefix and is never ambiguous |
| `DirectRouting.OriginsDisjoint` | scripts/haproxy_base_contract.py:36-45 | No authority names both origins |
| `DirectRouting.AdmissionMeaning` | scripts/haproxy_base_contract.py:129-152 | Method, target form, host count, origin and length: exactly which requests go on |
| `Json.DecodePrinted` | scripts/haproxy_base_contract.py:93-108 | Decoding undoes printing for every plain document |
| `DirectText.RenderedRules` | scripts/haproxy_direct_contract.py:186-277 | The deciding lines of the rendered ingress are, in order, exactly the rules whose meaning is proved |
| `DirectText.EveryConditionDefined` | scripts/haproxy_base_contract.py:129-171 | No rendered rule or note uses a named condition that an earlier line does not define |
| `DirectText.ProbeSourcesExact` | scripts/haproxy_direct_contract.py:255-260 | The generation may be asked for from exactly the loopback addresses and the host's own listeners, listed in order without repeats |
| `DirectLength.BodyLength` | scripts/haproxy_direct_contract.py:157-277 | Whatever the hosts, listeners, peers and lifecycle, the text after the first line stays within 40960 bytes |
| `DirectConfig.DocumentReads` | scripts/haproxy_direct_contract.py:112-154 | Every admitted specification is read back from its own document |
| `DirectConfig.RenderingReads` | scripts/haproxy_direct_contract.py:288-301 | What is rendered within the bound reads back as its specification |
| `DirectConfig.RenderingFits` | scripts/haproxy_direct_contract.py:186-301 | No admitted specification renders to more than 65536 bytes |
| `DirectConfig.EveryRenderingReads` | scripts/haproxy_direct_contract.py:284-301 | Every admitted specification reads back from its rendering |
| `DirectConfig.OnlyRenderingsRead` | scripts/haproxy_direct_contract.py:288-301 | Only exact renderings of admitted specifications are read |
| `DirectConfig.RenderingsDiffer` | scripts/haproxy_direct_contract.py:280-285 | Two specifications never share a rendering |
| `DirectConfig.AcceptedRules` | scripts/haproxy_direct_contract.py:288-301 | A file that is read at all routes by exactly the proved rules of the specification it names |
| `ProviderFirewall.LandsAtMostOnce` | docs/provider-capability-contract.md:110-113 | However often a rebuild is submitted, in every run it takes effect at most once, only on the revision it names, and changes nothing unowned |
| `ProviderFirewall.OneOfManyLands` | docs/provider-capability-contract.md:110-113 | Of all requests that name one revision at most one takes effect, and none if anything else ended it |
| `ProviderFirewall.SupersededNeverLands` | docs/provider-firewall-contract.md:79-114 | Once the named revision is past, a request still pending never takes effect in any run |
| `ProviderFirewall.MayStillLand` | scripts/provider-firewall-contract.py:539-573 | A request not submitted again can take effect exactly if it is pending and its revision is the current one |
| `ProviderFirewall.RunFollows` | docs/provider-firewall-contract.md:79-115 | Every run keeps the provider's invariant and takes back nothing that was held, changed or superseded |
| `ProviderFirewall.VerifiedChange` | scripts/provider-firewall-contract.py:455-653 | In every run a verified change means the accepted policy with everything unowned as planned; its request landed only on the planned slice, did so if nobody else acted, and never lands again |
| `ProviderFirewall.RollbackExactly` | scripts/provider-firewall-contract.py:656-728 | Over every run: a rollback is planned exactly when the provider now holds neither the accepted nor the planned policy and the adapter may have left an effect; then the slice really changed, by the request alone if nobody else acted, the rollback names that very slice, and the request is dead |
| `ProviderFirewall.VerifiedRollback` | scripts/provider-firewall-contract.py:656-833 | In every run a verified rollback means the owned policy and everything unowned as when planned; both requests landed at most once, each on the slice it was planned on, and neither can ever undo it |
| `ProviderFirewall.PriorVerifiedStands` | scripts/provider-firewall-contract.py:685-705 | A verified prior policy is the planned one with everything unowned alike; the request can still land afterwards exactly if it is pending on an unchanged revision |
| `ProviderFirewall.PriorVerifiedThenChanged` | scripts/provider-firewall-contract.py:702-705 | A run in which it does: the acknowledgement is lost, the prior policy verified, the change made after |
| `ProviderFirewall.RecoveryAgreesWithVerify` | scripts/provider-firewall-contract.py:633-724 | Recovery calls a change done exactly when verification would and the adapter does not disown the effect |
| `ProviderFirewall.SatisfiedYetUnrecoverable` | scripts/provider-firewall-contract.py:685-703 | A run in which they differ: somebody else installs the accepted policy, the adapter truthfully reports it already satisfied, verification passes and recovery refuses |
| `ProviderFirewall.NothingIsReused` | scripts/provider-firewall-contract.py:374-401 | One authority serves one plan or one rollback, one read closes one transaction |
| `StreamAdapter.Adapter.Send` | scripts/public_findings.py:153-170 | True exactly when nothing went wrong, and then the whole frame went out; after anything else the stream is never written again |
| `StreamAdapter.Adapter.ReceiverReads` | scripts/public_findings.py:142-170 | Short writes, failures and lies notwithstanding, the receiver reads every delivered envelope in order and at most one more |
| `StreamAdapter.DecodeEncoded` | scripts/public_findings.py:156-165 | Frames decode to themselves and a frame cut short spoils none before it |
| `StreamAdapter.Notify` | scripts/public_findings.py:117-139 | Delivered is reported exactly for an acknowledged send |

## Left out

- Publisher.Publisher.Stage: does not model temporary file names, ownership, modes or SELinux labels; a staged file is one unnamed file that is whole or absent.
- Publisher.Publisher.Publish: the candidate's validation, the reload and the compensating reload are callbacks that succeed or fail; what they run is not modelled.
- HostFirewall.ManagementTransition: `collapse_addresses` is modelled by a merging loop with its documented result, not by the standard library's own text.
- HostFirewallPolicy.BuildPolicy: configured management lists must be free of repeats; that they are also sorted as text is not required, so the model admits more lists.
- HostFirewallPolicy.Remediation: IPv4-mapped IPv6 loopback and multicast addresses are treated as ordinary addresses; whether the standard library does so depends on its version.
- HostFirewallPolicy.ListingReadsBack: the kernel is assumed to list a table's objects in the order they were added.
- HostFirewall.Controller.Apply: the lock file, its ownership checks and the bounded command output are not modelled; one holder is assumed.
- PrefixLkg.BuildCandidate: fetching, JSON decoding and the text of the document; rows come with their network parsed or not.
- EnrollmentAuthority.Authority.Consume: certificate issuance fails or yields a certificate bound to the grant; X.509, PostgreSQL transport admission and signing are not modelled.
- EnrollmentAuthority.LocalHost.Accept: creation of the host directory and key, and loss of an unsynced credential file.
- EnrollmentAuthority.Authority.Initialize: an initialisation that stops half way, after which every transaction is refused.
- EndpointSwitch.System.Execute: other executors are assumed to follow the protocol, and foreign writers not to name the authority's operation ids, as the port contracts require.
- AvcProjector.Diagnose: regular expressions, UTF-8 decoding and the observation's digest; a line is given by the matches its expressions find. Context admission is assumed to have passed.
- AvcProjector.CaptureResult: the length of a document's canonical JSON is a parameter.
- ViewerTls.Viewer.Deploy: making a first installation and accepting it (taking one back is modelled), certificate parsing, served-TLS probes, the renewal status file and more than one fault in one renewal; a sync that fails and is followed by a power loss.
- DirectRouting.RoutingMeaning: what forwarding and response headers, log variables and the TCP preface do; they are rendered by `DirectText` as text that decides nothing. Whether a source is unspecified or multicast is a fact of the request.
- DirectText.RenderedRules: the text replacements that place the challenge seam, the canonical headers and the log facts are modelled as composition of the lines they result in.
- DirectConfig.EveryRenderingReads: the address parser is a parameter that prints at most 45 characters for an address, and SHA-256 is any function to 64 hexadecimal digits. Reading accepts only the JSON forms that are printed, which changes nothing because the whole file is compared with its rendering.
- ProviderFirewall.VerifiedChange: adapters are assumed to read honestly and completely, to condition a rebuild on the version its target names and to leave what is not owned alone; a rebuild lands in one step, whole or in part. Creation and removal of whole resources and formats of identities are not modelled.
- StreamAdapter.Adapter.Send: the lock around the adapter, and a stream that miscounts within the admitted range.
- The findings vocabulary and freshness checks of `scripts/public_findings.py`, which are single field comparisons.
- Everything that runs foreign programs: openssl, nft, systemctl, podman, certbot, rpm and SELinux tools.
- The quadlet, render, qualification and evidence scripts, the PHP files, and the CloudFront edge and WAF planners.
