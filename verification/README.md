# geodns zone compiler — a Dafny model

geodns serves DNS answers from zones defined in JSON files, one file per
zone (`example.com.json` defines `example.com`). `zones.go` holds the part
of the server that turns those files into zones. It does four things:

- It coerces scalar option values to integers.
- It reads the top-level zone options.
- It compiles every label of the `data` object into typed, weighted
  resource records. The record kinds are A, AAAA, NS, CNAME, MX, and
  "alias", which is stored as an MF record.
- It synthesises the zone's SOA record.

It also keeps a registry of zones in step with a directory. Changed files
are recompiled, unchanged ones are left alone, and zones whose file has
gone are removed.

The model is a set of pure functions over an already decoded JSON value:

| file | module | models |
|---|---|---|
| results.dfy | `Results` | the error outcome of a panic recovered at the file boundary, as `Result`/`Option` |
| json.dfy | `Json` | decoded JSON; an object is its members in one iteration order |
| coercion.dfy | `Coercion` | `strconv.Atoi`, `strconv.Itoa`, `int(float64)`, `valueToInt` |
| dns.dfy | `Dns` | type codes, class IN, `uint32`/`uint16` wrap-around, `dns.IsFqdn`/`dns.Fqdn`, record data |
| zonedata.dfy | `ZoneData` | `Zone`, `Label`, `Record`, `Options`, the defaults |
| builders.dfy | `Builders` | the normalisation of one kind's raw value and the per-kind record builders |
| weights.dfy | `Weights` | the weight sum and the heaviest-first ordering |
| labelcompiler.dfy | `LabelCompiler` | one kind of one label, the kind loop, one label |
| soa.dfy | `Soa` | `setupSOA` |
| zonecompiler.dfy | `ZoneCompiler` | the option loop of `readZoneFile`, the label loop, the whole zone |
| zoneproperties.dfy | `ZoneProperties` | consequences for whole labels and zones |
| reload.dfy | `Reload` | `zoneNameFromFile` and `zonesReadDir` as a registry transition |

Every panic that `readZoneFile` recovers from becomes a `Failure`. Some
inputs are parameters rather than modelled code:

- `isIP: string -> bool` stands for `net.ParseIP(s) != nil`.
- In `Reload.ZonesReadDir`, the directory listing is an input. It is a
  `Result`, so an unreadable directory is one case.
- The per-file compile is a function `(zoneName, fileName) -> Outcome`.
  `Reload.ReadZoneFile` builds that function from `ZoneCompiler.ReadZone`
  and a decoding function, which stands for opening and decoding the file.

A JSON object is a sequence of members in one iteration order of the Go
map. Its type, `Json.Members`, admits no repeated key, as a Go map has one
entry per key. A lookup returns the member with the key. Loops over a Go
map are folds over that sequence. So the model fixes one of the orders the program
may take. When an order changes only which error is reported, the model
shows it as "fails either way".

## Model

| member | source | states |
|---|---|---|
| Coercion.Atoi | zones.go:415 | Atoi succeeds exactly on an optional sign followed by one or more decimal digits, and yields that decimal value |
| Json.Lookup | zones.go:203 | the comma-ok read finds a value exactly when some member has the key, and the value is that of the last such member |
| Coercion.AtoiItoa | zones.go:392-394 | Atoi inverts Itoa on every integer |
| Coercion.Trunc | zones.go:421 | `int(f)` truncates toward zero: the result lies within 1 of the number, on the side of zero |
| Coercion.ValueToInt | zones.go:412-427 | a string converts exactly when it is an integer literal, to that integer; a number converts to its truncation; bool, null, list and object fail |
| Dns.Uint32 | zones.go:256 | the header TTL is the label ttl modulo 2^32, unchanged when already in range |
| Dns.Uint16 | zones.go:304 | the MX preference is the value modulo 2^16, unchanged when already in range |
| Dns.Fqdn | zones.go:297-299 | the result ends in a dot, extends the name by at most that dot, and leaves an already absolute name unchanged |
| Builders.Normalize | zones.go:222-242 | an object becomes one `[key, value or ""]` pair per member and fails on a member that is neither string nor null; a string becomes a one-entry list; a list stays as it is; any other value fails |
| Builders.NormalizeMembers | zones.go:227-233 | each member becomes a pair in member order, and any non-string, non-null value fails |
| Builders.AddressWeight | zones.go:267-277 | an address entry's second element gives the weight: a string through Atoi (an unparsable one fails), a number truncated, anything else or no element gives 0 |
| Builders.FieldInt | zones.go:300-305 | an MX field that is absent or null reads as 0; a string succeeds exactly when it is a decimal integer literal, with that value; a number is truncated toward zero; a boolean, list or object fails |
| Builders.RecordHeader | zones.go:254-259 | the record owner is absolute: the label name, a dot, then the zone origin and a final dot; class IN; the kind's type code; the TTL is the label ttl reduced modulo 2^32 |
| Builders.BuildAddress | zones.go:262-291 | an A or AAAA entry builds exactly when it is a list whose first element is an address the parser accepts and whose weight is usable; the record keeps the address, the header and that weight |
| Builders.BuildMx | zones.go:293-309 | an MX entry builds exactly when it is an object with a string `mx` and usable weight and preference; the host is made absolute without the origin, the preference cut to 16 bits |
| Builders.BuildCname | zones.go:311-317 | a CNAME entry builds exactly when it is a string; the target is absolute, kept when already absolute, otherwise completed with the origin |
| Builders.BuildNs | zones.go:324-348 | an NS entry builds exactly when it is a string or an object member; the name is made absolute and the TTL raised to at least 86400 |
| Builders.BuildRecord | zones.go:252-353 | header (owner `label.origin.`, class IN, type code, TTL, NS TTL at least 86400); which raw shapes each kind accepts; A/AAAA keep the address and weight; MX dot-terminates its host without the origin; CNAME qualifies with the origin only when not absolute; NS goes through Fqdn; alias is verbatim; only A, AAAA and MX carry weight |
| Builders.BuildAll | zones.go:246-361 | the kind builds exactly when every entry builds, one record per entry, each the entry's own record |
| Weights.Insert | zones.go:362-364 | placing a record into a heaviest-first sequence keeps it heaviest first, adds exactly that record and adds its weight to the sum |
| Weights.SortByWeight | zones.go:362-364 | the result is a permutation of the input, heaviest first, with the same weight sum |
| Weights.ZeroWeightsSum | zones.go:359-364 | records that all weigh 0 sum to 0; together with CompileKindSpec, which sorts only a positive sum, their kind is left in entry order |
| Weights.ByWeightWeightsUnique | zones.go:362-364 | any two heaviest-first permutations of one record set have the same weight at every position, so an unstable sort can reorder only records of equal weight |
| LabelCompiler.CompileKindSpec | zones.go:211-364 | a kind compiles exactly when it normalises and every entry builds; one record per entry; a permutation of the built records; the stored weight is their sum; heaviest first when the sum is positive, otherwise entry order; every record well built |
| LabelCompiler.CompileKinds | zones.go:211-218 | the kind loop leaves the label's name, ttl and max_hosts alone |
| LabelCompiler.KindStep | zones.go:213-218 | one kind step leaves the label's name, ttl and max_hosts alone |
| LabelCompiler.KindStepKeys | zones.go:246-361 | one kind step adds the kind's record set exactly when its key is present, and its weight sum exactly when it also built some record |
| LabelCompiler.CompileKindsOk | zones.go:211-218 | the kind loop succeeds exactly when every kind whose key is present and not null compiles |
| LabelCompiler.BuiltAreWellBuilt | zones.go:252-328 | every record built for a kind carries the label's owner, class IN, the kind's type and TTL, and weight 0 outside A, AAAA and MX |
| LabelCompiler.CompileKindsRecordKeys | zones.go:211-246 | the kind loop adds a record set for exactly the kinds whose key is present |
| LabelCompiler.CompileKindsWeightKeys | zones.go:211-365 | the kind loop adds a weight sum for exactly the present kinds that build at least one record; an empty kind gets none, since the `+=` never runs |
| LabelCompiler.CompileKindsKeys | zones.go:211-365 | after the kind loop the record keys are the earlier ones plus the present kinds, and the weight keys the earlier ones plus the present kinds with some record |
| LabelCompiler.CompileKindsFrame | zones.go:211-218 | every record set and weight of a type that no present kind maps to is kept unchanged, and no weight appears for such a type |
| LabelCompiler.CompileKindsHolds | zones.go:211-365 | starting from a label without weights for the kinds, each present kind ends holding exactly the records compiling its raw value gives, and a weight sum, equal to theirs, exactly when there is at least one record |
| LabelCompiler.LookupInt | zones.go:203-209 | an absent key keeps the default; a present string succeeds exactly when it is a decimal integer literal, with that value; a present number is truncated toward zero; a present null, boolean, list or object fails |
| LabelCompiler.CompileLabel | zones.go:198-209 | a label that is not an object fails; name kept; its ttl and max_hosts are the label's own values when given, the zone's otherwise |
| LabelCompiler.LabelKindsHeld | zones.go:211-365 | after the kind loop of a fresh label a record set is held exactly for the present kinds and for no other type, each as compiled, and a weight sum exactly beside the non-empty ones |
| LabelCompiler.CompileLabelSpec | zones.go:195-366 | a label has a record set for a kind's type exactly when that kind's key is present, and none for a type no kind produces (SOA included); a weight sum exactly beside the non-empty record sets; each set is the compiled raw value; with usable ttl and max_hosts the label compiles exactly when every present kind does |
| Soa.SetupSoa | zones.go:373-410 | succeeds exactly when the root has no NS key or its NS set starts with an NS record; then the root exists and holds exactly one SOA (TTL 3600, owner `origin.`, 5400/5400/2419200, contact, serial, minimum = zone ttl); the primary is the first root NS or "ns" without an NS key; a root with an empty NS set fails; nothing else changes |
| ZoneCompiler.ApplyOption | zones.go:156-172 | one top-level member: ttl, serial and max_hosts are coerced and set, contact must be a string, data must be an object; it fails exactly on a wrong shape; every other option and key is left alone |
| ZoneCompiler.ReadOptions | zones.go:153-172 | the option loop succeeds exactly when every ttl/serial/max_hosts member coerces, contact is a string and data is an object |
| ZoneCompiler.ReadOptionsNumbers | zones.go:126-166 | ttl, serial and max_hosts are the values given for their keys, coerced, or 120, 0 and 2 |
| ZoneCompiler.ReadOptionsContactData | zones.go:128-172 | contact is the contact string given or "support.bitnames.com"; the labels come from the data object, or there are none when data is missing |
| ZoneCompiler.CompileLabels | zones.go:195-201 | the label loop succeeds exactly when every label compiles, yields one label per data key, each compiled from its own value |
| ZoneCompiler.ReadZone | zones.go:122-181 | compiles exactly when the document decodes, its options and every label compile, and setupSOA accepts the root; a compiled zone has the file's origin, the options read, one label per data key plus the root, every non-root label as compiled, the root as compiled (or fresh) with only its SOA set replaced, and an SOA whose primary follows the root NS rule |
| ZoneProperties.MxObjectKindFails | zones.go:225-296 | the mx kind given as a non-empty object never compiles |
| ZoneProperties.MxObjectRejected | zones.go:225-296 | an mx value given as one non-empty object makes its label fail |
| ZoneProperties.CompiledRoot | zones.go:195-201 | a root object in data compiles to the zone's root label |
| ZoneProperties.EmptyNsLabel | zones.go:241-362 | a root `"ns": []` compiles to an empty NS record set with no weight sum |
| ZoneProperties.NsListCompiled | zones.go:324-364 | an ns list compiles to one NS record per entry, in list order, each entry a name and its record that name made absolute |
| ZoneProperties.ListedNsLabel | zones.go:324-364 | a root ns list compiles to one NS record per entry in list order, each the listed name made absolute |
| ZoneProperties.NoNsLabel | zones.go:213-218 | a root without a usable ns key has no NS record set |
| ZoneProperties.EmptyRootNsRejected | zones.go:386-387 | a zone whose root lists `"ns": []` fails to compile |
| ZoneProperties.UsableRootCompiles | zones.go:373-388 | a document whose options and labels compile also compiles to a zone when its root has no usable ns key or lists at least one name server |
| ZoneProperties.PrimaryNsDefault | zones.go:376-388 | a zone whose root has no usable ns key names "ns" as SOA primary |
| ZoneProperties.PrimaryNsIsFirstListed | zones.go:386-388 | the SOA primary is the first listed name server, made absolute, since name servers weigh nothing and keep list order |
| ZoneProperties.ExampleBuilt | zones.go:262-291 | A entries weighing 5, 0 and 10 build, in entry order, to records with those weights |
| ZoneProperties.WeightOrderExample | zones.go:359-364 | A entries weighing 5, 0 and 10 compile to the order 10, 5, 0 with weight 15 |
| ZoneProperties.SortedExample | zones.go:362-364 | the only heaviest-first arrangement of records weighing 5, 0 and 10 is 10, 5, 0 |
| Reload.LowerChar | zones.go:45 | lower-casing maps a dot to a dot and nothing else to a dot |
| Reload.JsonFileIff | zones.go:45 | the directory filter accepts exactly the names of at least five characters ending in a dot and j, s, o, n, each in either case |
| Reload.LastIndex | zones.go:430 | the last position of the character, or -1 exactly when it does not occur |
| Reload.ZoneNameFromFile | zones.go:429-431 | the zone name is the file name up to its last dot; a name without a dot has none |
| Reload.JsonFileZoneName | zones.go:45-49 | a file that ends in `.json`, in any case, names the zone of its name without the last five characters |
| Reload.Stamp | zones.go:62-74 | an entry (zone or placeholder) is stamped with the file's modification time, its origin, options and labels unchanged |
| Reload.ReloadFile | zones.go:51-76 | a zone is recompiled and stamped exactly when it is absent or the file is strictly newer; otherwise the registry is unchanged; other zones are never touched |
| Reload.JsonZonesSnoc | zones.go:43-51 | one more listed file adds its zone to the zones seen exactly when it is a `.json` file |
| Reload.ScanFiles | zones.go:43-76 | the file loop sees exactly the zones of the listed `.json` files and adds exactly those to the registry |
| Reload.ScanFilesKeepsOthers | zones.go:43-76 | a zone that no listed file names keeps its entry through the file loop |
| Reload.ScanFilesMonotone | zones.go:53-74 | no entry's read time goes back during the file loop |
| Reload.ScanFilesFresh | zones.go:53-74 | after the file loop every listed zone is at least as new as its file |
| Reload.Prune | zones.go:78-88 | pruning keeps exactly the seen zones and the reserved zone, unchanged |
| Reload.ZonesReadDir | zones.go:32-91 | an unreadable directory leaves the registry unchanged; otherwise the registry holds exactly the listed `.json` zones plus `pgeodns` if it was there; `pgeodns` keeps its entry unless a file names it |
| Reload.ReloadFresh | zones.go:53-74 | after a reload every listed zone is at least as new as its file |
| Reload.ReloadIgnoresOtherFiles | zones.go:45-47 | files without the `.json` suffix make no difference to a reload |
| Reload.ScanFilesStep | zones.go:43-76 | one more file in the listing acts on the registry after the earlier files: a `.json` file reloads its zone, any other file does nothing |
| Reload.ScanFilesLastFile | zones.go:51-74 | the last listed file decides its zone's entry when no earlier file names that zone |
| Reload.ReloadPerFile | zones.go:43-76 | with one file per zone, each listed zone ends as its own file dictates: recompiled and stamped if absent or older, else the old entry |
| Reload.ReloadIdempotent | zones.go:53 | reading an unchanged directory a second time changes nothing, whatever the compile step would now give |
| Reload.ReloadIsolation | zones.go:43-76 | a zone's entry after a reload depends on the compile step only through that zone's own compilation |
| Reload.ReadZoneFile | zones.go:107-181 | a file compiles exactly when it decodes and its zone compiles, giving a zone whose origin is the zone name and that has an SOA; on a failure the model stores the empty placeholder |
| Reload.ReloadedZoneShape | zones.go:61-74 | in the model a recompiled zone is either a zone with the file's name as origin and an SOA, or the empty placeholder, stamped with the file's time |

## Left out

- Opening and reading files, `json.Decoder`, and the error context from `errorutil.HighlightBytePosition` are I/O and a foreign library. The model starts from a decoded JSON value, and decoding is a parameter of `Reload.ReadZoneFile`.
- The `zonesReader` polling loop, `time.Sleep` and all logging are side-effect plumbing around `zonesReadDir`.
- `addHandler`, `dns.HandleFunc`, `dns.HandleRemove` and `dns.LenLabels` are foreign calls. The registry is a plain map, and the model keeps no label counts.
- `setupPgeodnsZone` is not modelled. It builds the reserved zone at startup, outside the reload step. `pgeodns` appears only as the name pruning spares.
- `dns.NewRR` is not modelled. The SOA is built directly as a record value, so the model does not parse the SOA text. It does not model a parse failure of that text, for example from a contact with spaces, and it does not model names that `NewRR` would make absolute.
- `net.ParseIP` is the `isIP` parameter, because the library is not visible. Addresses are kept as the accepted text.
- `Zone.AddLabel` is defined outside `zones.go`. `ZoneData.NewLabel` takes it to create an empty label that inherits the zone's ttl and max_hosts.
- The `RecordsByWeight` comparator is defined outside `zones.go`. The model reads it as heaviest first.
- Weights.SortByWeight: zones.go:363 uses `sort.Sort`, which is not stable. The model uses an insertion sort, which is one of the orders `sort.Sort` may produce. It claims a permutation and heaviest first, but not stability. `Weights.ByWeightWeightsUnique` shows that records of equal weight are the only freedom.
- Go map iteration order is fixed to one order:
  - Kinds are compiled in the fixed order a, aaaa, ns, cname, mx, alias.
  - Labels and options follow member order.
  - NS pairs from the object syntax follow member order.

  In the program these orders vary between runs, and with them which error is reported. The primary nameserver taken from the object syntax varies too.
- LabelCompiler.CompileKindSpec: the weight sum is an unbounded integer. In zones.go:359 `label.Weight[t] +=` adds 64-bit `int`s, which wrap. Weights whose sum passes 2^63 - 1 wrap negative there, so zones.go keeps entry order and stores a negative sum, whereas the model sorts and stores the true sum.
- Coercion.Atoi does not model the out-of-range error of `strconv.Atoi` above 64 bits, because integers here are unbounded.
- Coercion.Trunc models a JSON number as an exact real. It does not model IEEE-754 rounding or out-of-range conversion.
- Reload.ReadZoneFile stores an empty zone as the placeholder after every failure. When the panic comes after line 122, readZoneFile returns the zone built so far, and `zonesReadDir` stores that partial zone instead. Its contents depend on map iteration order, so the model leaves it abstract in `Reload.Outcome` and states `Reload.ReloadPerFile` for any outcome.
- Reload.ReloadedZoneShape inherits that simplification: a partial zone stored after a late failure has the zone's name as origin but may have no SOA, which is neither case the lemma allows.
- Reload.ToLower folds only ASCII letters, whereas `strings.ToLower` follows Unicode. Only the `.json` suffix is compared. Two non-ASCII letters fold to ASCII under Unicode: the Kelvin sign to `k` and the dotted capital I to `i`. So no non-ASCII character folds to `j`, `s`, `o` or `n`, and none folds to a dot. The suffix test therefore decides the same way on every name.
- Dns.IsFqdn treats any name ending in a dot as absolute. It does not model the escaped-dot handling of newer `dns.IsFqdn`.
- The error `zonesReadDir` returns is not modelled. It is the error of the last file that failed, and its caller drops it. The model keeps only the registry.
- Concurrent reads of the registry by query handlers are out of scope.

## Behaviour of zones.go worth noting

- A and AAAA accept any address that `net.ParseIP` accepts (zones.go:280, 286). The address family is not checked.
- `sort.Sort` is not stable (zones.go:363). Records of equal weight may change order.
- An `mx` value written as a single non-empty object becomes key/value pairs (zones.go:225-234). The MX builder asserts each entry is an object (zones.go:294), so the label fails. `ZoneProperties.MxObjectRejected` proves it.
- A kind given as an empty list gets an empty record set (zones.go:246) but no weight entry (zones.go:359 never runs).
- A failed compile can leave the partial zone as the placeholder rather than an empty one (zones.go:122, 62-68).
- A `null` document decodes to a nil map and yields a zone with only the root and its SOA (zones.go:130-175).
- CNAME qualification gives `target + "." + origin + "."` when the origin is non-empty and not itself absolute (zones.go:314-317). For a file named `.json`, the origin is empty and the target becomes just `target + "."`. `Builders.BuildRecord` states both.
