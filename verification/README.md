# v2rayA: a model of its state-changing core

v2rayA steers a machine's traffic through a proxy. This project models, in Dafny, the parts of
it that change state on which other things depend, and states what they keep over whole runs:

- the redirect mode of the firewall (legacy iptables): the setup script, the IP whitelist in its
  three forms, the clean script, and the address watcher, over an interpreter of nat tables and an
  evaluator of packets;
- the DNS answer cache: a map and a list with least-recently-used and time-to-live eviction;
- the catalogue of servers and subscriptions, addressed by ordinals, and the references to it;
- the move from `bolt.db` to `v2raya.db`, as steps on files with a crash possible after each;
- the macOS system proxy, saved before it is changed and restored afterwards;
- the DNS query path: rules and routing, the handler between router, cache and upstreams, the EDNS0 loop
  token, queries going out and replies coming in;
- the eBPF program that exempts device-bound sockets, in an interpreter of its instructions;
- the message feed, the port white list, and the log as it is fetched by offset, decoded and folded into lines.

Each file holds one module, named after what it models; `Catalogue.dfy` also holds `Ordinals`, and
`Options.dfy` the type of a value that may be missing.
State that the source updates in place is a class whose methods are specified by functions on values
(`RedirectHost.Host`, `DnsCacheImpl.DnsCache`, `CatalogueDb.Database`, `MacProxy.SystemProxy`,
`DnsMessages.Message`, `DnsRouter.Router`, `DnsHandler.Handler`, `MessageFeed.Feed`, `LogStream.View`); the
lemmas are about those functions and about arbitrary sequences of calls. What a function computes is said
again without it, in addresses, names, seconds, rows and ports (`RedirectExempt`, `DnsCacheTraces`,
`DnsHandlerTraces`, `BoltContent`). The messages the DNS cache holds are
objects too, shared with whoever stored them, so the entries are entries of references.

What comes from outside is a parameter: clocks and elapsed times, what an exchange with an upstream brings,
what the log holds when it is read, which command of a script fails,
which tools a host has, what a forwarder does to a query, which step of the migration fails or is the
last before a crash, and the libraries for regular expressions, CIDRs, JSON and geosite data.

## Where the code and its promise part

Each of these is stated as an exact condition, with a concrete case where one is needed.

- Cleaning with IPv6 switched off after a setup with IPv6 on leaves the IPv6 chains behind; the clean
  restores the host exactly if it covers IPv6 or `TP_OUT` is not in the IPv6 table when it starts
  (`RedirectCleanup.IPv6LeftBehind`, `RedirectCleanup.CleanRestoresIff`).
- An address that comes and goes on an interface takes an equal rule of `TP_RULE` with it; an
  interface address inside a reserved range has the same masked rule
  (`RedirectHost.AddThenRemove`, `RedirectHost.InterfaceAddressIsReserved`).
- Deleting several entries shifts the connected references one deletion at a time. Entries picked
  twice with different `sub` or `outbound` fields survive the removal of duplicates, and subscriptions
  are ordered by their `sub` field first; both can drop or keep the wrong reference
  (`Whiches.SubscriptionsOutOfOrder`, `Whiches.SubscriptionsRepeated`). For any picks in any order, all
  references come out right exactly if the ordinals that the two walks take are the ordinals they name
  (`Whiches.ExpectedIff`, from `References.ExactIff`; `References.RepeatsIff` and `References.OrderIff` say
  what that comes to for ordinals that descend or are distinct).
- A Bolt database with an auto-select subscription and a stored proxy setting without `autoAdd` never
  passes the migration's own verification (`BoltContent.MigratableIff`, `BoltImport.AutoSelectRefused`).
- A crash between the removal of a useless `v2raya.db` and of its `-wal` leaves the old `-wal` beside
  the next database (`Migration.StaleWal`, `Migration.StaleWalArises`).
- An inspection of `v2raya.db` that fails counts as finding no data, and the file is discarded
  (`Migration.FailedInspectionDiscards`).
- A suffix entry with a leading dot does not match the domain itself, although the comment beside the
  code says it does (`DnsRules.SuffixByLabels`). The model follows the code.
- A `Reload` whose rules do not compile keeps the old rules but has already replaced the upstreams. A
  query is then routed as before exactly if the upstream it is sent to has the same address and tag in
  the old and the new list (`DnsRouter.Router.Reload`, `DnsRouter.FailedReload`).
- The mark that an entry is being prefetched is kept by key. A prefetch that outlives its entry and then
  fails takes the mark off the entry stored since, and a second prefetch of that starts beside the one
  that runs (`DnsPrefetch.TwoAtOnce`); `DnsPrefetch.FlagIff` says exactly which steps take a mark off.
- Two instances of this program that forward to each other do not recognise the loop: each writes its
  queries anew (`DnsLoop.BoundedIff`, `DnsLoop.RunsAway`, `DnsLoop.OtherInstanceLoses`).
- A port range that ends at 65536 is marked but never closed by the scan, so it is lost if it also
  holds 65535 (`PortLists.PreservedIff`, `PortLists.TextsPreservedIff`). A range past 65536 fails.
- The log is asked for from a byte offset that is counted on the decoded text. A read that ends inside a
  character decodes to U+FFFD, three bytes whatever was read, so the offset is past what was read
  and bytes are never fetched. For a response that does not begin with a byte order mark, which is left
  out of the text and not counted, it is right exactly if nothing shorter than three bytes was replaced: for
  a log in UTF-8, if no character was cut, or one of four bytes after three
  (`LogStream.ReadSize`, `LogStream.CutRead`, `LogStream.LetterLost`).

## Model

| member | source | states |
|---|---|---|
| RedirectHost.GetSetupCommands | service/kernel/iptables/redirect.go:54-156 | the loops that append rules per interface build exactly the script whose verdicts `RedirectSetup.SetupVerdicts` gives in terms of the configured entries, for both families |
| RedirectHost.NewWhitelistSetter | service/kernel/iptables/legacy_whitelist.go:35-68 | the loop that looks for the two marker lines cuts the script into the steps of `Split` |
| RedirectHost.PerLineCommands | service/kernel/iptables/legacy_whitelist.go:113-119 | one append per CIDR, in order |
| RedirectHost.Host.ExecCommands | service/common/cmds/command.go:25-43 | a script leaves the host as its lines do one after another, up to the first failure when it stops at errors, or past every failure when it does not, and reports a failure; any of its commands may be refused from outside |
| RedirectHost.Host.RunWhitelist | service/kernel/iptables/legacy_whitelist.go:70-91 | the fallbacks from ipset to atomic restore to single rules, with what each leaves behind when it fails, stopping at errors or not |
| RedirectHost.Host.RunSetter | service/kernel/iptables/iptables.go:81-129 | hooks and steps in order, stopping at the first that fails or going on and reporting it |
| RedirectScript.StepsPastAgree | service/kernel/iptables/iptables.go:92-129 | going on past errors reports success exactly when stopping at the first one would, and then has done the same |
| RedirectHost.Host.AddIPWhitelist | service/kernel/iptables/redirect.go:32-42 | deletes an equal rule first and inserts at the head, errors ignored |
| RedirectHost.Host.RemoveIPWhitelist | service/kernel/iptables/redirect.go:44-52 | deletes the first equal rule, errors ignored |
| RedirectHost.AddExempts | service/kernel/iptables/redirect.go:32-42 | after an address is added, exactly the addresses that agree with it above its host bits are exempt besides what was exempt before |
| RedirectHost.AddThenRemove | service/kernel/iptables/redirect.go:32-52 | adding and removing an address gives back the table if and only if it held no equal rule |
| RedirectHost.InterfaceAddressIsReserved | service/kernel/iptables/redirect.go:60-80 | the rule for 10.0.0.5/8 is one of the reserved ranges' rules |
| RedirectSetup.SplitKeepsScript | service/kernel/iptables/legacy_whitelist.go:35-68 | the split steps, written out, are the script with each marker line replaced by its family's per-CIDR rules |
| RedirectSetup.StepsRunLikeScript | service/kernel/iptables/iptables.go:92-114 | on a host without ipset and restore tools, the steps have the effect of the commands they stand for, failures included |
| RedirectMeaning.WhitelistFormsAgree | service/kernel/iptables/legacy_whitelist.go:70-119 | whichever form a successful whitelist step ends in, the rules it leaves match exactly the packets to a whitelisted network |
| RedirectExempt.PatternCovers | service/kernel/iptables/redirect.go:87-93 | the pattern written for a configured interface entry matches a name exactly if the entry covers it: a final `*` or `+` stands for any ending, any other entry for one name |
| RedirectExempt.UsualEntries | service/kernel/iptables/redirect.go:87-93 | an entry of a name and a `*` covers exactly the interfaces whose names begin with it, a plain name exactly itself |
| RedirectExempt.ReservedIs | service/kernel/iptables/redirect.go:65-130 | the reserved networks of each family are exactly the listed ranges of addresses, first to last |
| RedirectExempt.MarkedIs | service/kernel/iptables/redirect.go:81 | the mark test asks for the eighth bit |
| NatTable.InNetIs | service/kernel/iptables/redirect.go:32-52 | an address is in a masked network exactly if it agrees with it above the host bits |
| RedirectMeaning.RulesMean | service/kernel/iptables/redirect.go:66-96 | the returning rules of TP_RULE apply exactly to packets with the eighth mark bit, to addresses in the reserved ranges, on an interface that a configured entry covers, and to whitelisted networks, each said without the rules |
| RedirectMeaning.HookVerdict | service/kernel/iptables/redirect.go:97-109 | through the inserted jumps and the chains behind them, a packet at a hook gets the promised verdict, and else that of the rules below |
| RedirectSetup.SetupInstalls | service/kernel/iptables/redirect.go:54-156 | a setup that succeeds, through any fallbacks, adds precisely the chains and jumps to any table that had none of them |
| RedirectSetup.SetupVerdicts | service/kernel/iptables/redirect.go:60-109 | for every packet and every prior table: mark bit 0x80 keeps its old verdict, DNS goes to port 52353 even when exempt, other TCP to 52345 exactly when not exempt, the rest keeps its old verdict; exempt are the reserved ranges, interfaces covered by a configured entry, and whitelisted networks |
| RedirectCleanup.SetupDirties | service/kernel/iptables/redirect.go:60-156 | a setup stopped after any command, or inside the whitelist, leaves a table the clean script can deal with |
| RedirectCleanup.CleanTable | service/kernel/iptables/redirect.go:158-199 | one family's clean commands, errors ignored, bring any such table back exactly |
| RedirectCleanup.CleanRestores | service/kernel/iptables/redirect.go:158-199 | after any history of setups, each stopped anywhere, and watcher calls, the clean script gives back the tables and sets of before, less a set of the program's own that was left over |
| RedirectCleanup.CleanRestoresIff | service/kernel/iptables/redirect.go:158-199 | without a condition on the history: restored if and only if the clean covers IPv6 or `TP_OUT` is not in the IPv6 table at that moment |
| RedirectCleanup.IPv6LeftBehind | service/kernel/iptables/redirect.go:158-199 | on any untouched host a plain setup with IPv6 succeeds, a clean without IPv6 does not restore it and one with IPv6 does |
| RedirectCleanup.SetsDestroyed | service/kernel/iptables/redirect.go:158-199 | once the tables are back nothing refers to the two sets, so the last lines of the clean script destroy them and no others |
| NatTable.RankIrrelevant | service/kernel/iptables/redirect.go:60-109 | a packet's verdict in a loop-free table does not depend on the ranking that shows it loop-free |
| NatTable.WalkConcat | service/kernel/iptables/redirect.go:60-109 | rules of a chain decide in order: what follows matters only for packets that fall through |
| NatTable.WalkUnaffected | service/kernel/iptables/redirect.go:158-199 | chains that cannot reach a change give the same verdict before and after it |
| LruList.Keeps | core/dns/cache.go:224-292 | a key is kept while fewer than the capacity of other keys are used |
| LruList.Exact | core/dns/cache.go:224-292 | when keys leave only by eviction, it is kept if and only if that many were not |
| DnsCacheSpec.NextKeys | core/dns/cache.go:121-292 | every operation moves the order of use as a bounded list of distinct keys moves |
| DnsCacheSpec.RunKeys | core/dns/cache.go:121-341 | after any trace: no key twice, never more than the capacity, and the order of use is that of the list |
| DnsCacheSpec.LruPromise | core/dns/cache.go:121-156 | after any history, a key stored or hit, then not removed, cleared or read expired, is cached while fewer than `maxSize` other keys are touched |
| DnsCacheSpec.LruExact | core/dns/cache.go:224-292 | the same in both directions when nothing is removed meanwhile |
| DnsCacheSpec.RunRefines | core/dns/cache.go:224-292 | after any trace every entry agrees with a plain map of what was last stored under its key, and its end is that of what was stored |
| DnsCacheSpec.HitsAreLastStored | core/dns/cache.go:121-192 | after any trace a key that is held is answered, from what was last stored under it and not removed since, exactly until that is no longer good: 60, 30, 10 and 5 seconds for NXDOMAIN, SERVFAIL, REFUSED and other failures, min(max(minTTL, ttl), maxTTL) for a success |
| DnsCacheTraces.AnsweredFor | core/dns/cache.go:71-102 | the same in numbers: after any trace a held key is answered exactly up to 60, 30, 10 or 5 seconds after a failure was stored, and after a success up to its TTL within the configured or the usual limits |
| DnsCacheTraces.StaysHeld | core/dns/cache.go:121-292 | after any history a key stored or found is still there while it is not removed, cleared or read too late and fewer than `maxSize` other keys are asked for or stored |
| DnsCacheTraces.StaysAnswered | core/dns/cache.go:121-301 | and it is answered then, with what was last stored, exactly until that is no longer good |
| DnsCacheTraces.DueExactly | core/dns/cache.go:355-475 | after a successful answer and any operations since, a prefetch is due exactly if prefetching is on, none runs, fewer than three failed since the last success, 5 or 30 seconds have passed since the last of them, and the entry is in its last tenth or within the threshold of its end |
| DnsCacheSpec.HitTTLs | core/dns/cache.go:158-220 | after any trace the answer of a hit is that last stored, and each of its records shows max(minTTL, ttl minus elapsed seconds) of what the stored one says, OPT and TSIG records excepted, without 32-bit truncation in the way, for every configured minimum; its own TTL is the least of its answer records |
| DnsCacheSpec.ClampedWithin | core/dns/cache.go:71-89 | a clamped TTL lies between the limits and is the original one if that does |
| DnsCacheSpec.AnswersStayApart | core/dns/handler.go:60-75 | an answer stored for one query is served to another only for the same upstream address, channel, name and type |
| DnsCacheImpl.CopyRRs | core/dns/cache.go:194-203 | new records, all different, with the values of the old ones; no record that existed is written |
| DnsCacheImpl.DecreaseRecordTTLs | core/dns/cache.go:205-220 | TTLs brought down in place, record by record, to the aged values |
| DnsCacheImpl.CopyCachedResponse | core/dns/cache.go:158-192 | a new message with new records that shows the stored one aged; the stored one says what it said |
| DnsCacheImpl.DnsCache.constructor | core/dns/cache.go:56-69 | an empty cache with the default size for a size that is not positive |
| DnsCacheImpl.DnsCache.Get | core/dns/cache.go:121-156 | the entry the specification finds and the entries it leaves; a hit is a new message with new records showing what the stored message now says, aged, and no message is written |
| DnsCacheImpl.HitTwice | core/dns/cache.go:121-203 | two hits in a row age the same stored records, whatever the receiver of the first answer does to it in between |
| DnsCacheImpl.GetAfter | core/dns/cache.go:121-192 | after any trace of operations there is a hit exactly if the key is held and what was last stored is still good; it shows, record by record, that message as it now reads, each TTL less the whole seconds since, and as its own the least of them |
| DnsCacheImpl.DnsCache.Set | core/dns/cache.go:224-292 | the entries of the specification, whose answers and lifetimes `DnsCacheTraces` gives in numbers, eviction included, with the message itself kept and not a copy; map and list still agree |
| DnsCacheImpl.DeepCopy | core/dns/listener.go:215-235 | a message equal to the answer that shares no record with it |
| DnsCacheImpl.Reply | core/dns/listener.go:212-246 | what the client is sent: a copy, SERVFAIL if copying fails, and without a raw message one that shares the records |
| DnsCacheImpl.StoreAndReply | core/dns/listener.go:215-246 | an answer that is stored and then sent to a client as a copy still says what the upstream said, whatever is done to the copy |
| DnsCacheImpl.DnsCache.Remove | core/dns/cache.go:304-314 | the key is gone from map and list, the rest is in order |
| DnsCacheImpl.DnsCache.Clear | core/dns/cache.go:316-325 | an empty cache |
| DnsCacheImpl.DnsCache.RemoveElement | core/dns/cache.go:335-341 | exactly one element leaves the list, and exactly its key the map |
| DnsCacheImpl.DnsCache.SetPrefetching | core/dns/cache.go:415-434 | the flag of one entry, its place unchanged |
| DnsCacheImpl.DnsCache.RecordPrefetchFailure | core/dns/cache.go:436-455 | the failure count and backoff of one entry, its place unchanged |
| DnsCacheImpl.DnsCache.RecordPrefetchSuccess | core/dns/cache.go:457-475 | both back to zero, its place unchanged |
| Ordinals.KeptAt | service/db/listOp.go:373-391 | a survivor stands at its old ordinal minus the removed ones below it |
| Ordinals.KeptFrom | service/db/listOp.go:373-391 | every place after a removal is held by a survivor |
| Ordinals.RankIs | service/db/listOp.go:373-391 | the new ordinal is the old one minus the number removed below it |
| Catalogue.WithoutList | service/db/listOp.go:373-391 | deleting rows one ordinal at a time removes the set of ordinals from the list |
| Catalogue.LiveCount | service/db/listOp.go:383-390 | the count of lower rows, taken on the half-updated table, is the row's place in the list |
| Catalogue.SnapshotCount | service/db/listOp.go:383-390 | so is the count taken on the table before the update |
| Catalogue.MaxSortIs | service/db/listOp.go:197-224 | in a table with ordinals 0..n-1 the next free ordinal is n |
| CatalogueDb.Renumber | service/db/listOp.go:383-390 | an update of one row after another on the live table gives each row of the list its place |
| CatalogueDb.Trim | service/db/listOp.go:401-418 | the loop over ordinals removes those subscriptions and their servers, and nothing else |
| CatalogueDb.Database.ServersAppend | service/db/listOp.go:197-224 | the new servers follow the old ones; the ordinals stay 0..n-1 |
| CatalogueDb.Database.ServersRemove | service/db/listOp.go:373-391 | any list of ordinals, in any order, repeated or out of range, removes that set; the survivors keep their order |
| CatalogueDb.Database.SubscriptionsRemove | service/db/listOp.go:397-427 | the same for subscriptions, with the servers of each |
| CatalogueDb.Database.SetSubscription | service/db/listOp.go:67-112 | one subscription and its servers are replaced in place, or nothing changes if it is not there |
| CatalogueDb.Database.SubscriptionAppend | service/db/listOp.go:226-272 | the subscription follows the others, with its servers |
| CatalogueDb.Database.RemoveTx | service/db/listOp.go:432-449 | connected references, subscriptions and servers change together, or none of them if a part fails |
| References.DescendingIsRight | service/server/service/touch.go:26-62 | shifting a reference at each deletion, from the highest ordinal down, is removing the set at once |
| References.FateIs | service/server/service/touch.go:26-62 | for any ordinals in any order, shifting a reference at each deletion is removing at once the set of ordinals the walk takes |
| References.ExactIff | service/server/service/touch.go:26-62 | for any ordinals in any order, every reference into the list comes out right if and only if the walk takes just the ordinals it names |
| References.RepeatsIff | service/server/service/touch.go:44-58 | what that comes to for ordinals that do not ascend: no repeated ordinal has a survivor above it |
| References.OrderIff | service/server/service/touch.go:29-43 | what that comes to for distinct ordinals: they are walked from high to low |
| Whiches.LessIsStrictWeak | service/db/configure/which.go:79-99 | the order of references is a strict weak order |
| Whiches.SortSameTypeReverse | service/db/configure/which.go:123-145 | a permutation: servers, then subscriptions, then servers of subscriptions, each type from the highest (sub, id) to the lowest |
| Whiches.ReverseBlock | service/db/configure/which.go:134-136 | exactly the places of the block are mirrored |
| Whiches.ShiftReferences | service/server/service/touch.go:32-41 | the backward loop drops or shifts every reference as the one deletion asks, in order |
| Whiches.DeleteTouches | service/server/service/touch.go:20-68 | the references left, and the ordinals to remove, for all touches in turn |
| Whiches.MoveIsFate | service/server/service/touch.go:26-62 | a reference moves exactly as the ordinal it holds |
| Whiches.ExpectedIff | service/server/service/touch.go:26-62 | whatever was picked and however ordered, every reference to a server or into a subscription comes out as it should if and only if both walks take just the ordinals they name |
| Whiches.ReferencesSurvive | service/db/configure/which.go:315-339 | a reference to something deleted is gone; every other one locates the same server in the renumbered catalogue |
| Whiches.AlikeDescend | service/db/configure/which.go:123-145 | sorted picks that differ only in their id are walked strictly downwards |
| Whiches.SubscriptionsOutOfOrder | service/db/configure/which.go:94-98 | two subscriptions with different `sub` fields: a reference to a deleted one survives, one to a kept one is lost |
| Whiches.SubscriptionsRepeated | service/db/configure/which.go:94-98 | three picks of two subscriptions: a reference into one that was not picked is lost |
| Deletion.GetNonDuplicated | service/db/configure/which.go:171-199 | the picks that name something that is there, each once, in any order |
| Deletion.DeleteWhich | service/server/service/touch.go:8-78 | all of it or nothing: what is left of servers and subscriptions is what was not picked, in order; all references come out as they should if and only if both walks are exact, which they are if picks of a type differ only in their id; the connected references left are then those there were, in their order, each naming the server it named, less those whose server or subscription was picked |
| Migration.SafeStep | service/db/migrate.go:22-171 | every step, failing step, crash and use of the database keeps the safety invariant |
| Migration.RunsAreSafe | service/db/migrate.go:22-171 | over every run the Bolt content is intact in `bolt.db` or in a backup that was not there, older backups are untouched, and the temporary file is whole and accepted before it is published |
| Migration.PublishesVerified | service/db/migrate.go:139-157 | the only step that puts a new `v2raya.db` in place puts the whole, accepted import there, while `bolt.db` still stands |
| Migration.DataKept | service/db/migrate.go:35-53 | a database that holds data is taken away again only by the rollback of its own publication, if no inspection fails |
| Migration.FailedInspectionDiscards | service/db/migrate.go:176-187 | an inspection that fails leads to the removal of a database with data |
| Migration.MoveBoltAside | service/db/migrate.go:189-203 | the search ends, at the first free name, and nothing is overwritten |
| Migration.Completes | service/db/migrate.go:22-171 | from any crash point an attempt without faults ends, with the files given exactly; `bolt.db` is gone if and only if data was there or the import passes |
| Migration.FaultUndone | service/db/migrate.go:95-171 | an import in which a step fails, up to the moving aside of `bolt.db`, ends with `bolt.db` in place, no `v2raya.db`, no temporary file of its own and every other file as it was |
| Migration.StaleWal | service/db/migrate.go:47-52 | an old `-wal` stands beside the new database if and only if the attempt began with one and no database |
| Migration.StaleWalArises | service/db/migrate.go:47-52 | a crash between the two removals leads there |
| BoltImport.TextInjective | service/db/plainOp.go:24-26 | no two rows of system_config share a key text |
| BoltImport.LikeSystem | service/db/migrate.go:546 | the pattern counts the system rows and no others |
| BoltImport.MigrateSystemBucket | service/db/migrate.go:249-274 | every pair of the bucket, under its prefixed key |
| BoltImport.MigrateBuckets | service/db/migrate.go:415-457 | settings and connections of every named outbound bucket |
| BoltImport.InsertSubscriptions | service/db/migrate.go:342-412 | the rows of subscriptions and of their servers; `BoltContent.ContentKept` says whose each server is and where it stands |
| BoltImport.AutomaticGroup | service/db/auto_select_group_migration.go:15-89 | without an auto-select subscription nothing but the marker; with one the rewritten proxy setting and all flags off |
| BoltImport.Migrate | service/db/migrate.go:95-137 | the tables of the whole import, or none if a list is no array or a rewrite fails; what they hold is `BoltContent.ContentKept` |
| BoltImport.VerifyMigration | service/db/migrate.go:532-614 | accepts exactly the tables with equal counts and equal, readable outbound values (`BoltContent.VerifiedIs`) |
| BoltImport.PassesIff | service/db/migrate.go:532-614 | an import is committed and accepted if and only if the lists are arrays, the rewrites succeed, the outbound values are readable and no stored proxy setting is rewritten to something else |
| BoltImport.AutoSelectRefused | service/db/auto_select_group_migration.go:49-84 | a stored proxy setting without the added field is refused whenever a subscription has auto-select |
| BoltContent.MigrationEnds | service/db/migrate.go:22-171 | an attempt without faults gets rid of `bolt.db` exactly if a database was in use or the file can be migrated; a database in use stays as it is, else all of the file is in the new one; the file itself is in place or in a new backup, and nothing of a discarded or temporary database is left |
| BoltContent.ContentKept | service/db/migrate.go:249-457 | every import that commits: subscription `i` has ordinal `i`, the configuration of item `i` and exactly its servers, numbered from zero, the plain servers likewise; every system value stands under its key, `setting` as the policy makes it; every named outbound's two values stand under theirs; there is nothing else |
| BoltContent.MigratableIff | service/db/migrate.go:277-457 | what a Bolt file must be like to be migrated, said of its lists, its setting and its buckets |
| BoltContent.VerifiedIs | service/db/migrate.go:532-614 | on any tables the check compares the numbers of system keys, plain servers and subscriptions, and that each outbound value of the file stands there and is readable |
| MacProxy.BuildSetup | service/kernel/iptables/systemProxy_macos.go:145-153 | the loop over services builds the setup script, which from any settings leads to web and secure web proxies at 127.0.0.1:52345 and a SOCKS proxy at 127.0.0.1:52306, on, for every service listed, and to no other change |
| MacProxy.SetupShows | service/kernel/iptables/systemProxy_macos.go:145-153 | the whole setup script, from any settings and for any list of services: those ports and that address on every service listed, its automatic proxy as before, services not listed untouched |
| MacProxy.BuildRestore | service/kernel/iptables/systemProxy_macos.go:221-258 | the loop over saved services builds the restore script |
| MacProxy.RestoreRestores | service/kernel/iptables/systemProxy_macos.go:221-258 | whatever a service is set to, the whole restore script makes it show what its snapshot shows, if and only if it has no automatic URL where the snapshot has the automatic proxy on without one |
| MacProxy.OffTurnsOff | service/kernel/iptables/systemProxy_macos.go:207-221 | without a snapshot the whole script turns every proxy of every service off |
| MacProxy.RunsAreFaithful | service/kernel/iptables/systemProxy_macos.go:140-270 | over every run of setups and cleans stopped anywhere, each clean in an order of its own, crashes and changes by the user while no snapshot is pending, the pending snapshot shows the user's settings |
| MacProxy.CleanRestores | service/kernel/iptables/systemProxy_macos.go:191-270 | after any such run a clean that reaches its end makes every service show what the user chose, and the snapshot is gone exactly if it could be forgotten |
| MacProxy.SetupProxies | service/kernel/iptables/systemProxy_macos.go:140-189 | after any such run a setup that reaches its end has every service proxied, with what the user chose in the snapshot |
| MacProxy.SystemProxy.SetUp | service/kernel/iptables/systemProxy_macos.go:140-189 | a snapshot found is kept, else the present settings are saved before anything is changed; if it reports success every service listed is proxied at 127.0.0.1, web at 52345 and SOCKS at 52306, and nothing else is changed |
| MacProxy.SystemProxy.CleanUp | service/kernel/iptables/systemProxy_macos.go:191-270 | restores from memory or else from the database, turns every proxy of every service off without either, and forgets the snapshot only after the last command |
| MacProxy.SystemProxy.Withdraw | service/kernel/v2ray/transparent.go:235-249 | nothing is done unless the database holds a snapshot |
| ConnectGuard.GuardBehaves | service/kernel/bounddevice/guard_linux.go:112-147 | on every context the program ends without a fault; only a TCP socket of this namespace that is device-bound and lacks the bit is changed, and then the connect is allowed if and only if setsockopt succeeded |
| ConnectGuard.OnlyTheBypassBit | service/kernel/bounddevice/guard_linux.go:128-130 | the new mark has the bypass bit and every other bit as before |
| DnsRules.LabelsDot | core/dns/rule.go:48-56 | splitting at dots distributes over a dot |
| DnsRules.JoinLabels | core/dns/rule.go:48-56 | the labels of a name joined again are the name |
| DnsRules.SuffixByLabels | core/dns/rule.go:36-61 | a suffix entry compares labels: the domain and all below it, or only what is below for one with a leading dot |
| DnsRules.LeafFits | core/dns/rule.go:36-143 | each entry is decided as it is meant: the same labels, those or more, a match of the name without its final dot, the query type, a client address in the network |
| DnsRules.MatchOr | core/dns/rule.go:164-171 | some child matches |
| DnsRules.MatchAll | core/dns/rule.go:332-343 | every group matches |
| DnsRules.BuildMatchers | core/dns/rule.go:221-325 | the compiled groups, or an error exactly if an expression does not compile or a network of either list is none |
| DnsRules.CompiledMeans | core/dns/rule.go:221-343 | the matchers accept a query if and only if each field that stands for anything has an entry that matches, geosite tags expanded |
| DnsRules.HoldsFits | core/dns/rule.go:36-343 | and that is so exactly if each such field has an entry that is true of the query as it is meant |
| DnsRouter.MapUpstreams | core/dns/router.go:50-58 | the address of an id is that of the last upstream listed under it, its tag the last that any of them has, and both are empty for an id that is not listed |
| DnsRouter.Router.Route | core/dns/router.go:71-127 | the result of the first rule that holds, with its upstream's address and tag and with `route` and `single` for what it leaves open, or of the default if none does, and no other |
| DnsRouter.RoutedIs | core/dns/router.go:71-127 | what the rules say of a query is one result and one only |
| DnsRouter.Router.UpdateRules | core/dns/router.go:132-157 | all rules replaced, or none if one does not compile |
| DnsRouter.AllCompileIs | core/dns/router.go:139-145 | rules are accepted exactly if every expression compiles and every network is one |
| DnsRouter.Router.SetGeositeResolver | core/dns/router.go:173-177 | a new resolver leaves the matchers already built as they are |
| DnsRouter.Router.Reload | core/dns/router.go:180-217 | as above, with the upstreams replaced in either case; after a failure a query is routed as before if and only if the upstream it is sent to has the same address and tag as before |
| DnsRouter.FailedReload | core/dns/router.go:180-217 | a router with one rule, a reload that fails because an expression does not compile, and the upstream of the rule off the list: its queries had an address and a tag, and have none |
| DnsRouter.FailedReloadUnroutes | core/dns/router.go:203-216 | an old rule whose upstream is no longer listed routes to no address |
| DnsMessages.Message.MarkOutgoing | core/dns/loop.go:48-72 | the token in the last OPT, in place of the first loop option or after the others, or in a new OPT |
| DnsMessages.Message.CarriesOwnToken | core/dns/loop.go:76-102 | true exactly if the last OPT holds option 65042 with the token |
| DnsMessages.Message.AddEcsSubnet | core/dns/response.go:123-178 | the client subnet option added to the OPT there is |
| DnsMessages.AddingWorks | core/dns/response.go:123-147 | an option added to any message: after the others of the last OPT, with the new size, or in a new OPT, and nothing else touched |
| DnsMessages.Message.SanitizeForClient | core/dns/listener.go:263-285 | the three sections as the specification of a reply gives them |
| DnsMessages.DropSigs | core/dns/listener.go:287-295 | the records without signatures |
| DnsMessages.BuildQuery | core/dns/upstream_stub.go:97-111 | the message an exchange sends; the proxy and dispatcher paths build theirs the same way |
| DnsMessages.BuiltOnce | core/dns/upstream_stub.go:97-111 | the query, exactly: one OPT of 4096 bytes with DO, in it the token under 65042 and, if the client's address is known, its /24 or /48 subnet; recognised on return |
| DnsMessages.MarkingWorks | core/dns/loop.go:48-72 | marking any message: recognised afterwards, no OPT too many, every record and every option other than the token in its place |
| DnsMessages.ReplyFits | core/dns/listener.go:263-295 | one OPT if the client sent one, with its DO bit and its size or 512 if that is more, else none; no signatures unless DO was set; all other records kept in order |
| DnsHandler.FindPlain | core/dns/handler.go:174-182 | the first upstream that is not for bootstrapping, by its id or else its address |
| DnsHandler.ChosenIs | core/dns/handler.go:160-192 | whom a query is for: the upstream its rule names, by id or else by address and channel; only if that is unknown or empty the first that is not for bootstrapping; and for a route only then the first of all |
| DnsHandler.HandledAsks | core/dns/handler.go:157-405 | whoever is asked, at once or by a prefetch, is whom the query is for |
| DnsHandlerTraces.GoesTo | core/dns/handler.go:95-405 | a query that is for an upstream: refused it asks nobody; a bypass asks that one, past the cache; any other asks it unless the cache answers under the key of its address, its channel, the name and the type, stores the answer there unless it is for bootstrapping, and starts a prefetch exactly if the entry is due |
| DnsHandlerTraces.GoesNowhere | core/dns/handler.go:160-200 | one that is for nobody gets an empty answer, and nothing is asked or stored |
| DnsHandlerTraces.PrefetchedEnds | core/dns/handler.go:22-57 | the end of a prefetch, as operations on the cache: the answer stored and a success noted under the same key, or a failure |
| DnsHandlerTraces.RunIsTrace | core/dns/handler.go:22-311 | over every run of queries and prefetches the cache is what a trace of its operations makes of an empty one, and everything stored was brought by an exchange with the upstream of its key |
| DnsHandlerTraces.CachedInTime | core/dns/handler.go:157-311 | after any run a query answered from the cache gets what an exchange with the upstream it is for brought for its question, no later than such an answer is good for |
| DnsHandler.CostIs | core/dns/handler.go:95-405 | no query costs more than one exchange, that of the prefetch it starts included, and which queries cost one |
| DnsPrefetch.OnePrefetch | core/dns/handler.go:241-246 | over every run, between two starts of a prefetch for one key a step took the mark off its entry: a prefetch for the key ended, a query found the entry expired, or the entry was removed, pushed out or unmarked |
| DnsPrefetch.FlagIff | core/dns/cache.go:372-475 | while an entry is marked no query starts a prefetch of it, and a step leaves the mark if and only if it is none of these |
| DnsPrefetch.TwoAtOnce | core/dns/cache.go:436-455 | a run in which a prefetch that outlives its entry fails and two prefetches of the entry stored since run at once |
| DnsHandler.RunCost | core/dns/handler.go:22-311 | over every run, through any changes of routing and upstreams, exchanges made and prefetches pending are no more than the queries |
| DnsHandler.RunsAreHonest | core/dns/handler.go:22-311 | over every run each cached answer was brought by an exchange that asked its question of its upstream |
| DnsHandler.CachedAnswersAreTheirs | core/dns/handler.go:157-311 | after any run a query answered from the cache gets what an upstream of the same address, over the same channel, brought for the same name and type |
| DnsHandler.Handler.HandleQuery | core/dns/handler.go:95-146 | routes as the router decides; whoever it asks is whom the query is for, at most one exchange with the prefetch it starts; cache, upstreams and prefetches are as `DnsHandlerTraces.GoesTo` says; an answer from the cache is the aged copy of what the stored message said |
| DnsHandler.Handler.Forward | core/dns/handler.go:157-311 | a hit is the aged copy of the entry and may start a prefetch; a miss asks once and stores the answer unless it is for bootstrapping |
| DnsHandler.Handler.StepAside | core/dns/handler.go:313-410 | a refusal and a stub cost nothing, a bypass asks once, and none of them touches the cache |
| DnsHandler.Handler.PrefetchAsync | core/dns/handler.go:22-57 | one exchange; its answer is stored and the failures forgotten, or the failure noted |
| DnsLoop.LoopIsBounded | core/dns/listener.go:162-183 | with forwarders that keep the token, over every run of clients, handler, prefetches and forwarders, exchanges made and pending never outnumber the clients' queries |
| DnsLoop.RunsAway | core/dns/loop.go:76-102 | with one that does not, a single query makes any number of exchanges |
| DnsLoop.BoundedIff | core/dns/handler.go:95-311 | the bound holds of every run if and only if the token is kept on this process's queries |
| DnsLoop.HopKeeps | core/dns/loop.go:76-102 | one forwarder that passes on the EDNS options of a query with the token passes the token on |
| DnsLoop.ChainKeeps | core/dns/loop.go:14-20 | forwarders that pass on the EDNS options they are sent keep the token along chains of any length, so the bound holds of every run |
| DnsLoop.OtherInstanceLoses | core/dns/upstream_stub.go:97-106 | a query written by an instance with another token is not recognised |
| MessageFeed.Box.Offer | service/kernel/v2ray/feed.go:90-96 | a message is taken unless the box is full; what was received and is buffered stays a subsequence of what was offered |
| MessageFeed.Box.Receive | service/kernel/v2ray/feed.go:18-21 | the oldest message leaves, nothing else changes |
| MessageFeed.NewSubscriptions | service/kernel/v2ray/feed.go:23-31 | an empty feed, or none for a size that is not positive |
| MessageFeed.Feed.RegisterProduct | service/kernel/v2ray/feed.go:37-41 | a product without subscribers; one registered again forgets those it had |
| MessageFeed.Feed.SubscribeMessage | service/kernel/v2ray/feed.go:43-75 | a fresh box at the end of the product's list, to be offered every message of the product from then on, or nothing for an unknown product |
| MessageFeed.Feed.ProductMessage | service/kernel/v2ray/feed.go:77-98 | every subscriber with room gets the message, the count is the number of those, all others are unchanged; each box has been offered exactly what its product produced since it was subscribed |
| MessageFeed.Subscription.Cancel | service/kernel/v2ray/feed.go:52-70 | the first call closes and takes out its own box and no other, however indexes shifted; a second does nothing; a call that starts from index -1 fails and changes nothing |
| MessageFeed.CancelThrice | service/kernel/v2ray/feed.go:52-70 | of three calls the first takes the box out, the second does nothing and the third fails |
| PortLists.ReadsBack | service/db/configure/portWhiteList.go:39-49 | a number written in decimal is read back |
| PortLists.ParsesBack | service/db/configure/portWhiteList.go:79-82 | a decimal number is parsed as itself if it fits 64 bits and refused otherwise |
| PortLists.HasPort | service/db/configure/portWhiteList.go:78-108 | some entry of the list matches the port, and none does if the port is not a number |
| PortLists.TextCovers | service/db/configure/portWhiteList.go:94-107 | on canonical entries comparing texts is comparing ports |
| PortLists.Scan | service/db/configure/portWhiteList.go:54-67 | the runs of marked ports, except one that reaches the end of the table |
| PortLists.Compress | service/db/configure/portWhiteList.go:34-69 | ascending entries with a gap between neighbours for exactly the marked ports, but for a run that reaches 65536; a failure exactly if a range runs past the table |
| PortLists.PreservedIff | service/db/configure/portWhiteList.go:34-69 | the ports are the same if and only if the list does not hold 65535 together with a range that ends at 65536 |
| PortLists.TextsPreservedIff | service/db/configure/portWhiteList.go:32-107 | the same of the texts: HasPort says the same before and after compressing under that condition and no other |
| PortLists.CanonicalIsUnique | service/db/configure/portWhiteList.go:54-67 | lists of this form with the same ports are equal |
| PortLists.CanonicalIsShortest | service/db/configure/portWhiteList.go:54-67 | no list of entries for the same ports is shorter |
| PortLists.CompressedTwice | service/db/configure/portWhiteList.go:32-78 | compressing again changes nothing |
| LogStream.LinesFollow | gui/src/composables/useLogStream.ts:49-71 | after a whole line the lines of a chunk follow |
| LogStream.LinesGoOn | gui/src/composables/useLogStream.ts:54-60 | inside a line the chunk's first line continues it |
| LogStream.LinesSpell | gui/src/composables/useLogStream.ts:49-53 | a text is its lines with a newline after each and what follows the last; no line holds a newline |
| Utf8.RoundTrip | gui/src/api/index.ts:184-191 | decoding undoes encoding, whatever bytes follow |
| Utf8.TightIff | gui/src/composables/useLogStream.ts:78 | for any bytes the decoded text is at least as large, and of the same size if and only if every piece that was replaced is three bytes long |
| LogStream.ReadSize | gui/src/composables/useLogStream.ts:78 | how far the offset moves for any response, a byte order mark at its start included |
| LogStream.CutRead | gui/src/composables/useLogStream.ts:78 | a UTF-8 log that breaks off inside a character: the text read, the offset, and that the offset is right if and only if no character was cut or one of four bytes after three |
| LogStream.LetterLost | service/server/controller/logger.go:39-49 | a concrete log read between two bytes of a letter: the letter after it is never fetched |
| LogStream.Fold | gui/src/composables/useLogStream.ts:54-75 | the texts after folding and trimming, with levels and sources of the present texts |
| LogStream.View.Append | gui/src/composables/useLogStream.ts:49-79 | whatever the chunks, the lines are the last 20000 of the whole text, each with the level and source of its present text, and the offset is the size of the text |
| LogStream.View.Fetch | gui/src/composables/useLogStream.ts:81-91 | a poll adds the text of the log from the offset on; for a log in UTF-8 that holds what was fetched and more, exactly that more is added, the text encoded is the log, and the offset is its end, if and only if no character is cut (for the offset: or one of four bytes after three) |

## Left out

- nftables: the `nftRedirect` table text; its meaning belongs to nft.
- iptables-legacy and -nft: the rewriting of command names, and locks; every command is one step.
- RedirectHost.Host.RunSetter: hooks only succeed or fail; redirect mode sets none.
- RedirectCleanup.CleanRestores: a clean command that fails for a reason outside the tables is not covered.
- DNS cache: statistics, hit counts and rates, and nil responses.
- DnsHandler.Handler.HandleQuery: a cancelled context, a missing module, metrics and statistics; each call is one step, so two hits at once may both start a prefetch.
- Catalogue: rows that do not parse, the JSON of rows, and the columns other than ordinal, owner and configuration text.
- Deletion.DeleteWhich: references are values; that two connected entries might be one object is not modelled.
- Connected lists per outbound: grouping, adding and removing single connections would only add easy members.
- Migration: account rows, outbound names read from gob data, and the update mode of subscriptions; restoring `bolt.db.bak`.
- Migration.Completes: one attempt is followed to its end; time and disk space are not modelled.
- BoltImport.PassesIff: JSON is a parameter, so it does not say which texts are arrays or how a setting is rewritten; the same holds of `BoltContent.ContentKept`.
- MacProxy.RunsAreFaithful: the set of network services is fixed, and changes by others while a snapshot is pending are excluded.
- ConnectGuard: attaching and closing the links.
- DnsRouter.Router.Route: locks; a query sees the rules of one moment.
- DNS transport: sockets, TLS, DoH, SOCKS5, retries, timeouts and health checks; an exchange is one step that sends any number of copies.
- DnsMessages: names, classes and wire format; only what tells OPT and RRSIG records from others is kept.
- PortLists.Compress: texts that are not canonical decimals are not modelled.
- PortLists.HasPort: the choice of the list by protocol name.
- LogStream.View.Append: line ids, the list of sources seen so far, and the timer.
- LogStream.View.Fetch: the in-memory log that is served when no file is configured, and failed requests.
- User interface, reports, platform files, generated code and the HTTP client.
