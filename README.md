# dozone reconciliation engine, in Dafny

dozone pushes a DNS zone file to DigitalOcean. It reads the zone file and fetches the records the provider already holds for the zone. It then lines up the two sides and works out a plan: which remote records to delete, which zone-file records to add, and which remote records to rewrite in place. This project models that reconciliation core and proves what it computes.

The core, module by module:

- `ZoneNames` (zone_name.dfy) covers zone-name normalisation and hostname expansion.
  - `NewZoneName` cuts every leading and trailing dot.
  - `Join` (Go's `ZoneName.String`) and `FQDN` expand a relative hostname against the zone, with `""` and `"@"` naming the apex.
- `DnsTokens` (dns_tokens.dfy) holds the parsed zone-file tokens: one constructor per record type the engine tells apart.
- `Records` (record.dfy) has the remote record (`DomainRecord`), the `Record` class with its `matched` flag, and the equivalence predicate `Matches`.
- `TokenContainers` (token_container.dfy) has the `TokenContainer` class (a token plus its `matched` flag) and `CreateRequest`, the provider request for a zone-file record.
- `Collect` (collect.dfy) is the token-collection loop of `main`, with the derivation of the zone name from the last SOA record that names one.
- `Matching` (matching.dfy) is the nested matching loop. It sets the flags of records and tokens in place, and is proved against the pure function `TokenFlags`.
- `Plan` (plan.dfy) covers the `toDelete`/`toAdd` loops, edit inference, the change count and the y/Y confirmation.
  - Edit inference moves each delete/add pair that shares an owner name into `toEdit`.
  - It visits the entries of both Go maps in an order it does not fix, so the model chooses entries with `:|` and every contract holds whatever the order.
- `Sync` (sync.dfy) composes the passes into one run of `main`, from the parsed tokens and the remote record list to the outcome: no zone name, declined by the user, or the plan to apply.
- `Scenarios` (scenarios.dfy) holds worked scenarios, proved rather than executed: three concrete plans and one general lemma. The concrete plans are:
  - a type change that becomes an edit;
  - a kept NS record beside a TXT record to add;
  - one remote record that absorbs two tokens of the same name, so that one of them is neither added nor written.

  The general lemma, `OneRecordAbsorbsAll`, covers one record to delete and any number of queued tokens of its name.

Where the code departs from its own doc comments or from what one might expect, the model follows the code:

- The doc comment of `NewZoneName` says a trailing dot is removed (proxy/ZoneName.go:12-13). The code calls `strings.Trim(name, ".")`, which strips every dot at both ends (proxy/ZoneName.go:15).
- The matching loop does not stop after a hit (main.go:150-155). One remote record can mark several equivalent tokens; a token is marked by the first remote record in iteration order that matches it, and by no other.
- `Matches` compares a TXT record's first segment only (proxy/Record.go:119). `CreateRequest` sends all segments joined by one space (tokenContainer.go:48). So if the provider stores the request's data unchanged, a multi-segment TXT record written by the tool never matches on the next run (`TokenContainers.TxtRequestRoundTrip`, which takes that storage as its precondition).
- Edit inference compares owner names only, not types (main.go:179). One remote record takes every queued token of its name, and only the last request scanned survives in `toEdit` (main.go:177-185). `Scenarios.SwallowedToken` shows a token that is dropped this way.
- AAAA and SRV records are understood by `Matches` but never collected by `main` (main.go:113-132). So no AAAA or SRV record is ever added. Worse, no provider AAAA or SRV record can take a token: each one is deleted, or overwritten by an edit when a queued token shares its name, even when the zone file lists it (`Sync.UncollectedTypesDropped`).
- The code iterates Go maps in unspecified order, and so does the model. Go keys `toDelete` and `toEdit` by the whole `godo.DomainRecord`, TTL, weight, flags and tag included. The model's key holds six of those fields (id, type, name, data, priority, port). The two keyings agree because the provider gives each record its own id, so no two records share the six modelled fields.

## Model

| member | source | states |
|---|---|---|
| ZoneNames.TrimDots | proxy/ZoneName.go:15 | the result has no dot at either end and is no longer than the input; `ZoneNames.NewZoneNameShape` pins it exactly |
| ZoneNames.NewZoneName | proxy/ZoneName.go:14-16 | the normalised name has no dot at either end; `ZoneNames.NewZoneNameShape` and `ZoneNames.NewZoneNameIdempotent` state the rest |
| ZoneNames.Join | proxy/ZoneName.go:26-36 | no contract of its own; its behaviour is stated by `ZoneNames.ApexExpansion`, `ZoneNames.RelativeExpansion`, `ZoneNames.ExpansionSuffix` and `ZoneNames.JoinInjective` |
| ZoneNames.FQDN | proxy/ZoneName.go:21-23 | no contract of its own; its behaviour is stated by `ZoneNames.ApexExpansion`, `ZoneNames.RelativeExpansion`, `ZoneNames.ExpansionSuffix` and `ZoneNames.JoinInjective` |
| ZoneNames.TrimLeftDots | proxy/ZoneName.go:15 | the result is a suffix of the input with no leading dot, and what it cuts off is dots only |
| ZoneNames.TrimRightDots | proxy/ZoneName.go:15 | the result is a prefix of the input with no trailing dot, and what it cuts off is dots only |
| ZoneNames.NewZoneNameShape | proxy/ZoneName.go:14-16 | the normalised name has no dot at either end and is the input with runs of dots cut from both ends |
| ZoneNames.TrimDotsEmptyIffAllDots | main.go:122-125 | trimming leaves the empty string exactly when the name is made of dots only |
| ZoneNames.TrimDotsNoEdge | proxy/ZoneName.go:15 | trimming a name without edge dots leaves it unchanged |
| ZoneNames.NewZoneNameIdempotent | proxy/ZoneName.go:14-16 | normalising a normalised name gives it back |
| ZoneNames.ApexExpansion | proxy/ZoneName.go:18-33 | "" and "@" expand to the bare zone name, and their FQDN is the zone name plus one dot |
| ZoneNames.RelativeExpansion | proxy/ZoneName.go:21-35 | any other hostname h expands to h + "." + zone, with FQDN h + "." + zone + "." |
| ZoneNames.ExpansionSuffix | proxy/ZoneName.go:21-36 | every expansion ends with the zone name, and every FQDN is the expansion plus a final dot |
| ZoneNames.JoinInjective | proxy/ZoneName.go:21-36 | two hostnames expand alike exactly when they are equal or both apex, and FQDNs agree exactly when expansions do |
| Records.Record.constructor | proxy/Record.go:22-28 | a new record keeps the provider record and zone name and starts unmatched |
| Records.Matches | proxy/Record.go:31-130 | no contract of its own; its behaviour is stated by `Records.MatchesOwnerAndType`, `Records.MatchesByType`, `Records.CnameDataExpanded`, `Records.TxtLaterSegmentsIgnored` and `Records.ApexOwnersAlike` |
| Records.MatchesOwnerAndType | proxy/Record.go:31-127 | a match implies the expanded remote owner equals the token's owner and the remote type string is the token's type, so an unknown type never matches |
| Records.MatchesByType | proxy/Record.go:36-129 | with owners and types agreeing, the per-type rules both ways: parsed address equality for A/AAAA, expanded target for CNAME, data + "." for NS, preference and exchanger for MX, priority, port and target for SRV, first segment for TXT |
| Records.CnameDataExpanded | proxy/Record.go:57-65 | relative CNAME data is expanded against the zone before comparison, and apex data is compared as the zone's FQDN |
| Records.TxtLaterSegmentsIgnored | proxy/Record.go:113-121 | TXT tokens with the same first segment match the same remote records whatever their other segments |
| Records.ApexOwnersAlike | proxy/Record.go:32-34 | a remote owner "@" matches exactly what an owner "" matches |
| TokenContainers.TokenContainer.constructor | tokenContainer.go:10-16 | a new container holds its token and starts unmatched |
| TokenContainers.JoinStrings | tokenContainer.go:48 | no contract of its own; its behaviour is stated by `TokenContainers.JoinStringsShape` and `TokenContainers.JoinEqualsFirstIffSingle` |
| TokenContainers.JoinStringsShape | tokenContainer.go:48 | a join is as long as its segments plus one separator between each two, and starts with the first segment |
| TokenContainers.JoinEqualsFirstIffSingle | tokenContainer.go:48 | a join with a one-character separator equals the first segment exactly when there is one segment |
| TokenContainers.CreateRequest | tokenContainer.go:18-54 | the request carries the token's owner name and type mnemonic, port 0, the MX preference as priority and priority 0 for every other type; other types abort, hence the precondition |
| TokenContainers.RequestData | tokenContainer.go:23-48 | request data is the printed address for A, the target, name server and exchanger as written for CNAME, NS and MX, and the space-joined segments for TXT |
| TokenContainers.MatchAgreesWithRequest | tokenContainer.go:22-48 | a remote record that matches a token has the type of the token's request, and its expanded name is the request's name |
| TokenContainers.TxtRequestRoundTrip | tokenContainer.go:44-48 | a remote TXT record holding the data its request sent matches the token again exactly when the token has a single segment |
| Collect.SyncedRecords | main.go:108-133 | the records kept from the parser's output are all of the synchronised types A, CNAME, MX, NS, TXT |
| Collect.SyncedRecordsCount | main.go:108-133 | each synchronised record is kept as often as the parser produced it, in a multiset sense, and nothing else is kept |
| Collect.LastNamingSoa | main.go:122-127 | the index found names the zone and no later token does, or there is none |
| Collect.ZoneFromSoa | main.go:122-127 | the zone name has no edge dots, is non-empty exactly when some SOA names the zone, and then is the normalised owner of the last such SOA |
| Collect.CollectTokens | main.go:105-133 | the loop yields one fresh, unmatched, distinct container per kept record, in order, and the zone name of `ZoneFromSoa` |
| Collect.CollectStep | main.go:108-133 | how the kept records and the zone name grow by one parser token |
| Collect.ZoneDerived | main.go:136-138 | no contract of its own; its behaviour is stated by `Collect.ZoneDerivedIff` |
| Collect.ZoneDerivedIff | main.go:136-138 | the run goes past the zone check exactly when some SOA names the zone, and then the name has no edge dots |
| Collect.SyncedRecordFromParser | main.go:108-133 | every kept record occurs as a parsed token |
| Matching.TokenFlags | main.go:149-156 | after n remote records a token is marked exactly when it was marked already or one of those records matches it |
| Matching.MatchRecord | main.go:150-155 | one inner loop marks every matching token and marks the record exactly when it matches a token still unmarked before the loop |
| Matching.MatchRecords | main.go:148-156 | the matching pass leaves the token flags of `TokenFlags`, and record i marked exactly when it matches a token unmarked by the records before it |
| Matching.TokenFlagsMonotone | main.go:149-156 | a flag once set stays set as the outer loop goes on |
| Matching.ClaimedByFirstMatch | main.go:151-154 | record i takes an unmarked token exactly when it matches it and no earlier record does |
| Matching.ClaimedOnce | main.go:151-154 | a token taken by record i1 is marked before any later record i2 can see it |
| Matching.TokenFlagsOrderIndependent | main.go:149-156 | which tokens end marked does not depend on the order of the remote records |
| Matching.ClaimsWithoutDuplicates | main.go:149-156 | when no token is equivalent to two remote records, a record ends marked exactly when it matches some token |
| Plan.CollectDeletes | main.go:158-164 | `toDelete` is exactly the set of values of the unmarked remote records |
| Plan.CollectAdds | main.go:166-172 | `toAdd` has exactly the unmarked tokens as keys, each mapped to its request |
| Plan.InferEdit | main.go:177-186 | one outer turn drops every queued token of the record's name; when there is one, the record moves from `toDelete` to `toEdit` with the request of such a token, and when there is none, `toDelete` and `toEdit` are unchanged; nothing else changes |
| Plan.InferEdits | main.go:174-187 | whatever the order: edits are former deletions and no longer deleted; a token stays queued exactly when no record to delete has its name; each edit carries the request of a token of its name; the edited names are exactly the names on both sides, one record per name |
| Plan.InferredPlanSeparated | main.go:174-187 | afterwards no deletion shares a name with a queued addition, and every token taken out of `toAdd` has the name of an edited record |
| Plan.EditedNamesRemoved | main.go:179-183 | each edited name is the name of a token taken out of `toAdd` |
| Plan.NumChanges | main.go:199-219 | no contract of its own; its behaviour is stated by `Plan.EditsSaveCalls` |
| Plan.EditsSaveCalls | main.go:174-219 | the change count plus one per edit is at most the deletions plus additions before inference |
| Plan.Proceeds | main.go:221-231 | no contract of its own; its behaviour is stated by `Plan.OnlyYesProceeds` |
| Plan.OnlyYesProceeds | main.go:221-230 | asked, the run goes on exactly when the answer is "y" or "Y"; "yes", " y", "n" and "" all abort |
| Sync.WrapRecords | proxy/Domain.go:93-94 | each provider record is wrapped, in order, in a distinct fresh unmatched `Record` of the zone |
| Sync.MatchFresh | main.go:148-156 | the matching pass from clear flags, as `MatchRecords` states it |
| Sync.Diff | main.go:158-187 | deletions and edits split the unmarked records; additions are the unmarked tokens whose name no unmarked record has; each edit carries the request of an unmarked token of its name; edited names are the shared names, one record per name |
| Sync.PendingUnmatchable | main.go:149-172 | after the pass from clear flags, a token is unmarked exactly when no remote record matches it |
| Sync.UnmatchedRecords | main.go:149-164 | after the pass from clear flags, the unmarked records are exactly those that took no token, and include every record no token matches |
| Sync.Reconcile | main.go:140-187 | from the provider's records and the tokens: a token stays unmarked exactly when nothing matches it; deletions and edits are disjoint and are exactly the records that took no token; additions and edits are as `Diff` states, in terms of the tokens nothing matches; no deletion shares a name with an addition |
| Sync.ReconcileParsed | main.go:105-187 | `Reconcile` on the containers built by the collection loop, stated over the records kept from the parser |
| Sync.Run | main.go:105-230 | no zone name exactly when no SOA names one; otherwise a plan, declined exactly when `Proceeds` fails on its change count (no `-yes`, a non-empty plan and an answer other than "y"/"Y"), with that count when declined; the plan, applied or declined, carries distinct containers of the kept zone-file records, one per record and in order; its deletions and edits are disjoint and are exactly the provider records that took no token; its additions are exactly the containers nothing matches whose name no deleted or edited record has, each with its request; its edits are the shared names, one record per name, each with the request of such a container; no deletion shares a name with an addition |
| Sync.UncollectedTypesDropped | main.go:113-132 | every provider AAAA or SRV record takes no token, so it is deleted or edited |
| Scenarios.TypeChangeIsEdit | main.go:176-186 | an A record `www` at the provider and a CNAME `www` in the zone give one edit to the CNAME request and nothing else |
| Scenarios.KeepNsAddTxt | main.go:148-187 | a provider NS record `api` matched by the zone's NS record, next to a zone TXT record `api`, gives only the TXT addition |
| Scenarios.OneRecordAbsorbsAll | main.go:176-186 | one record to delete and any number of queued tokens of its name leave one edit and empty delete and add sets |
| Scenarios.SwallowedToken | main.go:176-186 | with two tokens of one name and one record, one token's request is neither added nor the edit's request |

## Left out

- Zone-file parsing (`dns.ParseZone`) is a foreign library: the model starts from the parsed token sequence. Parser error messages are carried but not printed.
- `net.ParseIP` and `net.IP.String` are foreign. They are the parameters `parseIP` and `showIP` over an abstract address type, and `net.IP.Equal` is equality of parsed addresses.
- All DigitalOcean calls are network I/O and are left out: `Domain.Find`, `Add`, `FindOrAdd`, `RefreshRecords` with its pagination, `Record.Delete` and the apply loops (main.go:234-253). The provider's record list is the input sequence `remote`.
- Printing and reading the answer from standard input are I/O: the answer line is a parameter of `Run`.
- The download path, flag and environment handling, `getClient`, `tokenSource.go` and HTTP debug output are CLI and OAuth glue outside the engine.
- `DomainRecord`'s TTL, weight, flags and tag are not modelled. Matching and edit inference never read them; they take part only in the Go map keys, where the distinct provider ids already decide equality.
- Records.Matches: requires a well-formed token (a TXT record with at least one segment). The Go code indexes `Txt[0]` and would panic on an empty list. The model assumes the zone-file parser never yields a TXT record without segments (the `requires` of `Sync.Run`).
- TokenContainers.CreateRequest: requires a synchronised type instead of modelling the fatal `bail` for other types, which `main` never reaches because it collects only those types.
- Matching.MatchRecords: requires distinct record and token objects and records of the run's zone, as `main` builds them.
- Sync.Run: stops at the plan and does not model its application to the provider (main.go:234-253).
- `Matches` being free of side effects is not a stated property: a Dafny predicate cannot change state.
