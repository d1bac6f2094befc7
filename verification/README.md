# hetzner-dyndns in Dafny

A model of the two DynDNS update scripts of hetzner-dyndns. Both take a token, a list of
domains and an optional IPv4 and/or IPv6 address, and reconcile the domains' address
records at Hetzner:

- `hetzner_dyndns.php` talks to the legacy DNS API, where a zone holds a flat list of
  records. It fetches the zone's records, rewrites every A/AAAA record of the domain whose
  value differs, and creates a record for each supplied family that had none.
- `hetzner_dyndns_cloud.php` talks to the Cloud API, where a zone holds record sets keyed
  by name and type. It reads the set of each supplied family and creates it when the read
  finds none. An existing set is never compared or rewritten.

Both fold every failure into a verdict, printed as `Result: success` or `Result: failure`,
abort with 400 before calling the provider when the input is unusable, and abort with 401
after the `GET zones` probe, before processing any domain, when the token is refused or the
probe fails for any other reason.

The HTTP helper `hetzner_curl` is replaced by a provider that is pure state. It holds the
account's zones, its records or record sets, the next identifier, the accepted tokens and a
failure oracle: the set of call indices that fail in transit. `Serve` answers one call. A run
is a function from the input and the provider to an `Outcome`: the log of calls with their
responses, the status (`Aborted(code)` or `Completed(verdict)`) and the provider afterwards.

Modules:

- `Base`: `Option`, `Verdict`, `Status`, PHP's `empty()` on strings, the verdict fold.
- `Logs`: the zone names a log looks up and whether every exchange in it went as hoped,
  for either API's exchanges.
- `Text`: `explode` (`Split`), `implode` (`Join`), `trim` (`Trim`), and the trimmed list
  `Tokens` both scripts build from the `domain` parameter.
- `DomainLists`: what the two separators (`","` and `", "`) make of concrete list shapes.
- `DomainNames`: the zone name (the last two labels) and the sub-name (the labels before them).
- `Zones`: zones and the `zones?name=` query, shared by both APIs.
- `FlatApi`, `FlatReconciler`, `FlatTheorems`, `FlatConvergence`: the flat-record script.
- `CloudApi`, `CloudReconciler`, `CloudTheorems`, `CloudConvergence`: the record-set script.

Two behaviours worth knowing, both modelled as the scripts have them:

- When several records of the domain have the same family, the flat-record script does not
  stop at the first: it rewrites every one whose value differs
  (`FlatTheorems.ScanUpdatesExactlyStale`).
- A failed record-set create runs `continue` inside the domain loop, so a failed IPv4
  create skips the domain's IPv6 step; the next domain is still processed
  (`CloudTheorems.FailedIPv4CreateSkipsIPv6`).

## Model

| member | source | states |
|---|---|---|
| Base.PhpEmpty | hetzner_dyndns_cloud.php:33 | the only strings PHP's `empty` treats as empty are "" and "0"; "00", " " and "false" are non-empty |
| Base.Fold | hetzner_dyndns.php:74-77 | the verdict stays `Success` exactly when it was `Success` and the step went well; once `Failure`, always `Failure` |
| Text.IndexOf | hetzner_dyndns.php:61 | finds the leftmost occurrence of the separator, and reports none exactly when the string does not contain it |
| Text.Split | hetzner_dyndns.php:61 | `explode` always yields at least one piece and no piece contains the separator |
| Text.JoinSplit | hetzner_dyndns.php:69-70 | `implode` of `explode` with the same separator gives back the original string |
| Text.SplitJoin | hetzner_dyndns.php:69-70 | `explode` of `implode` gives back the pieces when no piece contains the one-character separator |
| Text.Trim | hetzner_dyndns.php:65 | `trim` returns an infix of its argument, removes only blanks, and leaves no blank at either end |
| Text.TrimIdempotent | hetzner_dyndns.php:65 | trimming twice is the same as trimming once |
| Text.TrimUnchanged | hetzner_dyndns.php:65 | a string that neither starts nor ends with a blank is left as it is |
| Text.TrimLeadingBlank | hetzner_dyndns.php:65 | a blank in front of a string does not change what `trim` returns, which is why "a, b" and "a,b" give the same list in the flat script |
| Text.TrimKeepsSeparatorOut | hetzner_dyndns.php:61-65 | trimming a piece that does not contain the separator gives a string that does not contain it either |
| Text.Tokens | hetzner_dyndns.php:61-65 | the domain list has one trimmed item per `explode` piece, in order and with duplicates kept, and no item contains the separator |
| Text.TokensWithout | hetzner_dyndns_cloud.php:82-87 | a parameter without the separator is a single trimmed domain |
| Text.TokensAtFirst | hetzner_dyndns.php:61-65 | the list is cut at the leftmost separator: the trimmed first piece followed by the list of the rest |
| Text.TokensPair | hetzner_dyndns.php:61-65 | two items around a one-character separator that neither contains are the list of the two trimmed items |
| DomainLists.FlatListWithSpace | hetzner_dyndns.php:61-65 | the flat script reads "a, b" as the two domains a and b |
| DomainLists.FlatListWithoutSpace | hetzner_dyndns.php:61-65 | the flat script reads "a,b" as the two domains a and b |
| DomainLists.CloudListWithSpace | hetzner_dyndns_cloud.php:82-87 | the record-set script reads "a, b" as the two domains a and b |
| DomainLists.CloudListWithoutSpace | hetzner_dyndns_cloud.php:82-87 | the record-set script reads "a,b" as one domain, the whole string |
| DomainNames.Labels | hetzner_dyndns.php:69 | a domain has at least one label and no label contains a dot |
| DomainNames.ShortDomainIsZone | hetzner_dyndns_cloud.php:91-93 | a domain of at most two labels is its own zone and has the empty sub-name |
| DomainNames.LongDomainRejoins | hetzner_dyndns_cloud.php:91-93 | for three or more labels, sub-name + "." + zone name is the domain |
| DomainNames.ZoneName | hetzner_dyndns.php:69-70 | the zone name's labels are the domain's last two labels (all of them when fewer), so it has at most two |
| DomainNames.ZoneNameIdempotent | hetzner_dyndns.php:69-70 | the zone name of a zone name is itself |
| DomainNames.SubName | hetzner_dyndns_cloud.php:91-93 | the sub-name is empty for a domain of at most two labels; for three or more its labels are all labels but the last two |
| DomainNames.ServiceExample | hetzner_dyndns_cloud.php:15 | "service.my-domain.ch" has zone "my-domain.ch" and sub-name "service" |
| FlatApi.Serve | hetzner_dyndns.php:209-218 | a refused token or a failed call yields a response without the expected field; no call deletes a record or changes its identity; reads change no record; validity of ids is kept |
| FlatReconciler.Visit | hetzner_dyndns.php:96-138 | one loop pass flags a family exactly when the record has the domain's name and that type and the family was supplied; it issues at most one PUT, for this record's id, with ttl 60 and a value different from the current one |
| FlatReconciler.ScanRecords | hetzner_dyndns.php:95-139 | the loop issues at most one PUT per record, and every PUT has ttl 60 and rewrites a record of the domain to a value it does not already hold |
| FlatReconciler.Creates | hetzner_dyndns.php:142-176 | at most two POSTs, each for the domain in the zone with ttl 60, of a supplied family whose flag stayed down, carrying that family's address |
| FlatReconciler.Plan | hetzner_dyndns.php:95-176 | every planned call is a write, at most one per record plus two, and every PUT comes before every POST |
| FlatReconciler.Issue | hetzner_dyndns.php:95-176 | every planned write is issued, in order, whatever the earlier responses; the step is good exactly when every response carried `record` |
| FlatReconciler.AfterFetch | hetzner_dyndns.php:85-176 | a fetch without `records` ends the domain step as a failure; otherwise the calls after it are exactly the planned writes for the records it returned |
| FlatReconciler.Reconcile | hetzner_dyndns.php:84-176 | the step after the zone lookup starts with the records fetch, which returns the zone's records when the provider is up; without `records` the step ends there as a failure, otherwise the calls that follow are exactly `Plan` of the returned records, whatever their responses; it looks up no zone and is good exactly when every response was the expected one |
| FlatReconciler.AfterLookup | hetzner_dyndns.php:74-176 | a lookup without zones ends the domain step as a failure; otherwise the step continues with the first zone returned |
| FlatReconciler.ProcessDomain | hetzner_dyndns.php:64-176 | the domain step starts with the lookup of the domain's zone name, answered from the provider's zones unless it is down; a lookup without zones ends the step as a failure (`continue`), otherwise the rest is `Reconcile` of the first zone returned on the provider the lookup left; it looks up nothing else and is good exactly when every response was the expected one |
| FlatReconciler.ProcessAll | hetzner_dyndns.php:62-177 | every domain is processed, in order, whatever happened before; the verdict is `Success` exactly when it started so and every exchange went well; no record is deleted |
| FlatTheorems.ProcessAllIsEachDomain | hetzner_dyndns.php:62-177 | the loop's log is the domain steps' logs end to end, each step starting from the provider the previous one left; the provider afterwards is the last step's; `$result` is the incoming verdict folded with every step's outcome |
| FlatTheorems.ProcessAllIgnoresVerdict | hetzner_dyndns.php:64-177 | whether earlier domains failed changes neither the calls the loop makes nor the records it leaves |
| FlatReconciler.AfterProbe | hetzner_dyndns.php:51-177 | a probe without `zones` stops the run with 401 and nothing else; otherwise one zone lookup per domain, in order, and the verdict is `Success` exactly when every exchange went well; after the probe, the calls, the provider and the verdict are exactly those of the domain loop `ProcessAll` started with `Success` |
| FlatReconciler.Probe | hetzner_dyndns.php:51-177 | the run stops with 401 exactly when the provider refuses the probe; otherwise the probe is followed by one zone lookup per domain, in order; after the probe, the calls, the provider and the verdict are exactly those of the domain loop `ProcessAll` started with `Success` on the provider the probe left |
| FlatReconciler.Run | hetzner_dyndns.php:22-177 | 400 exactly when the token or the domain parameter is absent or no address was supplied, with no call made; otherwise 401 exactly when the token is refused or the probe fails; otherwise the probe is followed by one zone lookup per listed domain, in order, and the verdict is `Success` exactly when every exchange went well; after the probe, the run is exactly `ProcessAll` over the trimmed items of the "," list with the given token |
| FlatTheorems.ScanFlags | hetzner_dyndns.php:95-139 | the `found` flag of a family is set exactly when its address was supplied and the zone has a record of the domain's name and that type |
| FlatTheorems.ScanUpdatesSound | hetzner_dyndns.php:99-136 | every update the loop issues rewrites a record of the domain whose value differs from its family's address, with ttl 60 |
| FlatTheorems.ScanUpdatesExactlyStale | hetzner_dyndns.php:99-136 | with unique ids, each record gets exactly one update when its value differs from its supplied family's address and none otherwise; a stale record's update carries the new address and ttl 60 |
| FlatTheorems.ScanCoversStale | hetzner_dyndns.php:99-136 | every stale record of the domain is rewritten, even without unique ids |
| FlatTheorems.ScanWritesNothing | hetzner_dyndns.php:99-103 | the loop issues no update exactly when no record of the domain is stale |
| FlatTheorems.PlanCreates | hetzner_dyndns.php:142-176 | one create per supplied family without a record, none otherwise; each create has the domain's name, its family's address, ttl 60 and the zone id |
| FlatTheorems.PlanEmptyIffUpToDate | hetzner_dyndns.php:95-176 | nothing is written exactly when every supplied family has a record and every such record already holds the address |
| FlatTheorems.UnsuppliedFamilyUntouched | hetzner_dyndns.php:99-160 | a family without an address gets no create and none of its records is updated |
| FlatConvergence.ReconcileConverges | hetzner_dyndns.php:84-176 | on a provider that does not fail, after the domain step every record of the domain of a supplied family holds that family's address, and each supplied family has a record |
| FlatConvergence.ConvergedPlansNothing | hetzner_dyndns.php:95-176 | a zone in that state produces no write |
| FlatConvergence.FirstPassConverges | hetzner_dyndns.php:64-176 | on a provider that does not fail, the domain step brings the zone it finds to that state |
| FlatConvergence.ProcessDomainQuiet | hetzner_dyndns.php:64-139 | when the zone found needs no write, the domain step issues reads only |
| FlatConvergence.SecondPassWritesNothing | hetzner_dyndns.php:64-176 | on a provider that does not fail, processing a domain a second time issues no write |
| CloudApi.Serve | hetzner_dyndns_cloud.php:211-220 | a refused token or a failed call yields a response without `zones` or `rrset`; record sets are only ever appended |
| CloudReconciler.ChosenToken | hetzner_dyndns_cloud.php:32 | the chosen token is usable exactly when the environment's or the query's is; the environment's wins whenever it is usable |
| CloudReconciler.Ensure | hetzner_dyndns_cloud.php:107-141 | the family block reads the set first; it stops there exactly when the read returned a set id, and otherwise issues exactly one create with the sub-name, the type, ttl 3600 and the address as the only value; it succeeds exactly when its last response carried a set id |
| CloudReconciler.Family | hetzner_dyndns_cloud.php:107-182 | a family without an address issues nothing; otherwise the block is the read, followed by one create with ttl 3600 and the address exactly when the read found no set; all its calls concern that type, zone and sub-name |
| CloudReconciler.Blocks | hetzner_dyndns_cloud.php:103-182 | every call of the family blocks reads or creates an A or AAAA set of the given sub-name in the given zone; they look up no zone, append only, and succeed exactly when every exchange went well |
| CloudReconciler.AfterLookup | hetzner_dyndns_cloud.php:96-182 | a lookup that found no zone ends the domain step there, failed (`continue`); otherwise every later call reads or creates an A or AAAA set of the domain's sub-name in the first zone returned |
| CloudReconciler.ProcessDomain | hetzner_dyndns_cloud.php:86-182 | the domain step starts with the lookup of the domain's zone name, answered with the zones of that name unless the provider is down, and looks up nothing else; without a zone it stops there, failed; otherwise every later call concerns the first zone returned and the domain's sub-name; it is good exactly when every exchange went well |
| CloudReconciler.ProcessAll | hetzner_dyndns_cloud.php:83-183 | every domain is processed, in order; the verdict is `Success` exactly when it started so and every exchange went well; record sets are only appended |
| CloudTheorems.ProcessAllIsEachDomain | hetzner_dyndns_cloud.php:83-183 | the loop's log is the domain steps' logs end to end, each step starting from the provider the previous one left; the provider afterwards is the last step's; `$result` is the incoming verdict folded with every step's outcome |
| CloudTheorems.ProcessAllIgnoresVerdict | hetzner_dyndns_cloud.php:86-183 | whether earlier domains failed changes neither the calls the loop makes nor the record sets it leaves |
| CloudReconciler.Probe | hetzner_dyndns_cloud.php:66-183 | the run stops with 401 exactly when the provider refuses the probe with the chosen token; otherwise one zone lookup per domain, in order, and the verdict is `Success` exactly when every exchange went well; after the probe, the calls, the provider and the verdict are exactly those of the domain loop `ProcessAll` started with `Success` on the provider the probe left |
| CloudReconciler.Run | hetzner_dyndns_cloud.php:32-183 | 400 exactly when neither the environment nor the query gives a usable token, the domain is absent or PHP-empty, or no address was supplied, with no call made; the environment token wins when usable; 401 exactly when the chosen token is refused or the probe fails; otherwise one zone lookup per item of the ", " list, in order; after the probe, the run is exactly `ProcessAll` over those items with the chosen token |
| CloudTheorems.FamilyCreatesOnMiss | hetzner_dyndns_cloud.php:107-143 | within one family block, every create comes straight after a read of the same set that found none, and every such read is followed straight away by the create of that set |
| CloudTheorems.AdjacencyConcat | hetzner_dyndns_cloud.php:107-182 | the create-after-miss pairing holds for two blocks run one after the other, the second opening with a read |
| CloudTheorems.BlocksCreateOnMiss | hetzner_dyndns_cloud.php:103-182 | across a domain's blocks a set is created exactly when the read just before found none: every create follows a miss of its own set, every miss is followed by the create of that set |
| CloudTheorems.BlocksSkipAbsent | hetzner_dyndns_cloud.php:107-146 | a family without an address is never read nor created |
| CloudTheorems.BlocksCreateAddress | hetzner_dyndns_cloud.php:113-128 | every create carries ttl 3600 and, as its only value, the address of its own family |
| CloudTheorems.FamilyFails | hetzner_dyndns_cloud.php:130-134 | a family block fails exactly when its create got no set id |
| CloudTheorems.FailedIPv4CreateSkipsIPv6 | hetzner_dyndns_cloud.php:130-134 | after a failed IPv4 create the domain's IPv6 set is neither read nor created, and the domain fails |
| CloudTheorems.BlocksReadSupplied | hetzner_dyndns_cloud.php:107-150 | a supplied IPv4 family is always read first; a supplied IPv6 family is read whenever no IPv4 create failed |
| CloudConvergence.EnsureProvides | hetzner_dyndns_cloud.php:107-136 | on a provider that does not fail, a family block succeeds and leaves the set in place |
| CloudConvergence.EnsureQuiet | hetzner_dyndns_cloud.php:137-141 | when the set exists, the block only reads it and changes nothing, even when the set's values differ from the address |
| CloudConvergence.BlocksProvide | hetzner_dyndns_cloud.php:106-182 | on a provider that does not fail, the blocks succeed and leave a set for every supplied family |
| CloudConvergence.BlocksQuiet | hetzner_dyndns_cloud.php:106-182 | when every supplied family's set exists, the blocks issue reads only |
| CloudConvergence.FirstPassProvides | hetzner_dyndns_cloud.php:96-182 | on a provider that does not fail, the domain step succeeds exactly when a zone of that name exists, and then leaves a set for every supplied family |
| CloudConvergence.SecondPassCreatesNothing | hetzner_dyndns_cloud.php:96-182 | on a provider that does not fail, processing a domain a second time creates nothing |

## Left out

- Logging (`wlog`): file and stdout writes, dates, and the masked token at hetzner_dyndns_cloud.php:40. None of it affects a decision.
- The transport inside `hetzner_curl`: curl options, headers, timeouts, JSON encoding and decoding. A call's result is reduced to whether it carries the field the script tests (`zones`, `records`, `record`, `rrset.id`).
- The provider's behaviour is an assumption of the model, not part of either script. It stores names exactly as given, refuses an update of an unknown id and a create in an unknown zone, and refuses a duplicate record set. The live API's view of names (relative names, `@` for the apex) is not modelled. The record-set script's apex sub-name `""` is therefore passed through as it is.
- Address validation with `filter_var`: an address is `Some` only when it was given, non-empty and valid, and the check itself is not modelled.
- Ambient input and output: `$_GET`, `getenv`, `header`, `http_response_code`, `echo`, `exit`. Inputs are parameters and the result is a value.
- PHP's loose `==` on record names and values: modelled as string equality.
- The `comment` field (`Auto-set by` and the script's file name) that the record-set script puts on each record it creates, at hetzner_dyndns_cloud.php:123 and 162: the script never reads it back and no decision depends on it, so `CreateRRSet` carries only the set's values.
- The values logged from `records[0]` at hetzner_dyndns_cloud.php:142 and 181: diagnostic only.
- Identifiers are unbounded naturals. The scripts only echo them back in paths and request bodies.
- Zone names are always the last two labels. Multi-label public suffixes such as `co.uk` give the wrong zone in the scripts and in the model alike.
