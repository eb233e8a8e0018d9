# dnszone: a verified model of the zone editor

This project models the core of the `dnszone` Ansible module
(`library/dnszone.py`). The module edits a DNS master file by making sure
that one resource record is present or absent. The core is the `DnsZone`
class and the two drivers `state_present` and `state_absent`:

- `addRecord` dispatches on the type tag (NS, A, AAAA, MX, CNAME, TXT). It
  looks up the record set at (name, type) and creates it when missing. It
  builds the typed record value from the data string and adds it to the set.
- `delRecord` removes the whole record set at (name, type).
- `increaseSOASerial` adds one to every SOA serial.
- `getRecords` lists the records type by type.
- Each driver loads the zone, makes the change, bumps the serial when the
  zone changed and the caller asked for it, saves when the zone changed,
  and returns the changed flag with the listing.

The zone is a value: a map from (owner name, type) to a record set, plus the
SOA records. A record set holds a TTL and a finite set of typed values
(`Records`). The Python string handling the editor relies on is modelled
exactly. That is `str.split` and Python 2's `int()` (`Text`). The per-type
decoding of the data string is in `Codec`. What each operation does to a
zone is specified by functions in `ZoneOps`. The class `ZoneEdit.DnsZone`
holds the zone in a field and changes it in place, as the source does. Its
methods are proved against those functions. `Engine` holds the two drivers.

The DNS library (dnspython 1.x, since the module is Python 2) is not
modelled. It becomes a record of functions, `Records.Dnspython`:

- address validation for A and AAAA;
- building a one-label name;
- turning the owner text into the zone's key name, or None where the lookup
  rejects it;
- the TTL rule of `Rdataset.add`.

Loading is an input, the parsed zone or None. Saving is an output, the zone
image written, if any.

The model follows the code in these points:

- The serial is bumped by plain addition, with no wrap-around at 2^32. Section
  3.1 of RFC 1982 asks for one (`ZoneOps.BumpPassesUint32`).
- A repeated identical "present" reports changed again, even when the value is
  already a member of the set (`Engine.RepeatedPresentStillChanges`).
- A raise after the lookup does not always leave the zone unchanged. When
  the lookup with `create=True` found no set at (name, type), it has already
  added an empty one in memory, and a rejected value, a rejected TTL or the
  type check of `.add` raises after that (`ZoneOps.RaiseAfterLookup`). The
  MX field-count failure raises before the lookup and changes nothing
  (`ZoneOps.AddUnpackFault`). A key that already has a set keeps it as it
  was. The empty set is never saved, because the raise ends the driver
  first.
- The MX preference is whatever `int()` reads, negative numbers included.
- An NS add never succeeds (see "## Findings"). Its lookup passes the bare
  name `NS`, which a star import has rebound to a module, so the lookup
  yields a set of a foreign type. `.add` is called on that set and raises
  `IncompatibleTypes` at its type check; the value is never added. Once the
  zone has loaded, an NS "present" therefore always raises and writes
  nothing.
- The TTL of a set after an add follows the library's rule. The model does
  not assume the set's TTL is overwritten.

## Model

| member | source | states |
|---|---|---|
| `Text.Split` | library/dnszone.py:175 | `str.split(sep)` gives at least one piece, and no piece contains the separator |
| `Text.SplitCount` | library/dnszone.py:163 | there is one more piece than there are separators |
| `Text.JoinSplit` | library/dnszone.py:175 | joining the pieces with the separator gives the input back |
| `Text.SplitJoin` | library/dnszone.py:175 | splitting separator-free pieces joined by the separator gives the pieces back, in order |
| `Text.ParseInt` | library/dnszone.py:150 | Python 2 `int()` in base 10: white space, an optional sign, white space, at least one digit, white space; anything else raises. A run of digits reads as its decimal value, a minus sign before one as its negation, and white space alone raises |
| `Text.ParseIntShowInt` | library/dnszone.py:150 | `int(str(n)) == n` for every integer, negative ones included |
| `Text.ParseIntIgnoresPadding` | library/dnszone.py:150 | `int()` reads a TTL or preference text the same with any leading and any trailing white space around it |
| `Codec.Rank` | library/dnszone.py:122 | each type's position in `rtypes`: NS, A, AAAA, MX, CNAME, TXT |
| `Codec.ParseTag` | library/dnszone.py:146-178 | exactly the six tags select a branch, each its own kind; any other string selects none |
| `Codec.ParseTagOf` | library/dnszone.py:146-178 | every kind's tag selects that kind's branch |
| `Codec.DecodeMx` | library/dnszone.py:162-167 | MX data fails to unpack exactly when it does not hold exactly one space. On success the record is an MX record whose exchange is one label that the library accepts |
| `Codec.DecodeMxText` | library/dnszone.py:163-165 | a decoded MX record's data is the preference text (read by `int()` as the preference), one space, and the exchange label verbatim |
| `Codec.DecodeTxt` | library/dnszone.py:173-177 | TXT strings are the `;`-separated segments in order: at least one, none containing `;`, and joined with `;` they give the data back |
| `Codec.DecodeTarget` | library/dnszone.py:157-161 | an NS or CNAME target is a one-label name whose label is the whole data string, when the library accepts that label |
| `Codec.Decode` | library/dnszone.py:146-178 | the value built for a kind has that kind. A and AAAA succeed exactly when the library accepts the address, and fail with a bad-address error. TXT never fails |
| `Codec.DecodeEncodeMx` | library/dnszone.py:163-165 | decoding "preference, space, label" gives back the MX record with that preference and exchange |
| `Codec.DecodeJoinedTxt` | library/dnszone.py:175 | decoding `;`-joined segments gives back the TXT record with those segments |
| `ZoneOps.FindOrCreate` | library/dnszone.py:148 | the lookup with `create=True` yields the existing set, or a new empty one; nothing but that key changes |
| `ZoneOps.Insert` | library/dnszone.py:150 | `rdataset.add` puts the value into the set next to the old members, with the TTL from the library's merge rule; no other key or the SOA changes |
| `ZoneOps.AddWith` | library/dnszone.py:146-178 | `addRecord` with the kinds in `stray` looked up under a foreign type. An unknown tag returns False with the zone unchanged. The six tags never return False. After True the kind is not stray, and the set at (name, type) holds the new value plus the old members, with the merged TTL. Only that key is touched, never the SOA, and a stray kind touches no set. A raise changes no existing set and at most adds an empty one |
| `ZoneOps.Add` | library/dnszone.py:146-178 | `addRecord` as written, NS looked up under the rebound name: an NS add never returns True and leaves the zone unchanged |
| `ZoneOps.IntendedAdd` | library/dnszone.py:146-178 | `addRecord` with every branch looking up its own type: True exactly when the tag is one of the six, the owner is accepted, the value can be built and the TTL text is an integer, and then the value is in the set at (name, type) |
| `ZoneOps.AddSucceeds` | library/dnszone.py:146-178 | `addRecord` returns True exactly when the tag is one of the six and not looked up under a foreign type, the owner is accepted, the value can be built and the TTL text is an integer |
| `ZoneOps.NsAddRaises` | library/dnszone.py:157-161 | as written, an NS add with an accepted owner, label and TTL raises `IncompatibleTypes` with the zone unchanged; the intended add returns True with the NS record in the set at (name, NS) |
| `ZoneOps.RaiseAfterLookup` | library/dnszone.py:146-178 | a raise other than the MX field-count failure, for an accepted owner and a lookup of the branch's own type, leaves the zone exactly as the lookup with `create=True` made it: unchanged when a set was there, else with an empty set added |
| `ZoneOps.AddUnpackFault` | library/dnszone.py:162-164 | the MX unpacking raises exactly on MX data without exactly one space, and then before the lookup, so the zone is unchanged |
| `ZoneOps.AddOnRejectedOwner` | library/dnszone.py:146-178 | for an owner the lookup rejects, the call raises on `.add` of None exactly when the value could be built |
| `ZoneOps.Del` | library/dnszone.py:139-144 | True exactly when a non-empty set exists at (name, type). It is then removed, and only that key changes. Otherwise False and the zone unchanged. Afterwards no non-empty set is at the key, so an existing empty set counts as absent |
| `ZoneOps.BumpSerials` | library/dnszone.py:135-137 | every SOA serial exactly one higher, same number of SOA records, every other SOA field unchanged |
| `ZoneOps.BumpZone` | library/dnszone.py:135-137 | bumping the serials leaves every record set as it was |
| `ZoneOps.BumpPassesUint32` | library/dnszone.py:137 | a serial of 2^32-1 becomes 2^32, not 0 |
| `ZoneOps.EntriesOf` | library/dnszone.py:131 | the records enumerated for one type are exactly the records of that type, each with its set's TTL |
| `ZoneOps.ListingsAgree` | library/dnszone.py:128-133 | any two listings of a zone hold the same records equally often; they differ only in the order within a type |
| `ZoneOps.ListingAfterDel` | library/dnszone.py:139-144 | after a successful delete, the listing has no record at the deleted (name, type) and keeps every other record |
| `ZoneOps.ListingAfterAdd` | library/dnszone.py:146-178 | after a successful add (as written or intended), the listing has the added value at (name, type) with the set's merged TTL |
| `ZoneOps.AddKeepsWellKinded` | library/dnszone.py:146-178 | adding (as written or intended) keeps every value in a record set of its own type |
| `ZoneEdit.DnsZone.constructor` | library/dnszone.py:118-123 | the object keeps file, origin, relativize mode and the loaded zone; `rtypes` is the six types in listing order |
| `ZoneEdit.DnsZone.Save` | library/dnszone.py:125-126 | the image handed to the serialiser is the whole current zone, untouched sets included |
| `ZoneEdit.DnsZone.GetRecords` | library/dnszone.py:128-133 | the result holds every record of the six types once and nothing else (never SOA), grouped type by type in the order NS, A, AAAA, MX, CNAME, TXT, each entry with its type, name, data and TTL |
| `ZoneEdit.DnsZone.IncreaseSOASerial` | library/dnszone.py:135-137 | the loop leaves the zone as `BumpZone` of the old zone |
| `ZoneEdit.DnsZone.DelRecord` | library/dnszone.py:139-144 | the new zone and the flag are those of `Del` on the old zone |
| `ZoneEdit.DnsZone.AddRecord` | library/dnszone.py:146-178 | the new zone and the result, or the raised fault, are those of `Add` (as written, NS included) on the old zone |
| `Engine.StatePresent` | library/dnszone.py:180-190 | a load failure returns (False, "Can not open zone file.") with no write. A raise from the add (always, for NS) propagates with no write. Otherwise the serial is bumped exactly when changed and asked for, the zone is saved exactly when changed, and the listing is of the final zone |
| `Engine.StateAbsent` | library/dnszone.py:192-202 | the same pipeline around `delRecord`. The changed flag is whether a non-empty set was removed, and a write happens exactly when it is True |
| `Engine.PresentOfNsRaises` | library/dnszone.py:180-190 | once the zone has loaded, `state_present` for type NS always raises, so it never reports and never writes (a zone that fails to load gives the open-failure return instead, as `StatePresent` states) |
| `Engine.PresentAlwaysChanges` | library/dnszone.py:185-190 | once the zone has loaded, a present that does not raise always reports changed, always saves, and bumps every serial when asked (a zone that fails to load reports unchanged without a write, as `StatePresent` states) |
| `Engine.RepeatedPresentStillChanges` | library/dnszone.py:180-190 | repeating a present on the zone it saved reports changed and saves again, while no record set's membership changes |
| `Engine.AbsentOfMissingRecord` | library/dnszone.py:192-202 | absent on a (name, type) without a non-empty set reports unchanged, writes nothing, and lists the zone as loaded |

## Left out

- Zone-file parsing and serialisation (`dns.zone.from_file`, `to_file`) and the file I/O behind them. Loading is the drivers' input `Option<Zone>`. Saving is the zone image the drivers return. A failing write is not modelled.
- How owner text becomes a zone name (relativisation against the origin, the `relativize` mode). This is the library function `resolveOwner`. Owner text the library cannot parse at all raises there; that path is not modelled, only the rejection that makes the lookup answer None.
- The string forms `str(name)`, `str(rdata)`, `str(ttl)` in `getRecords`. Listing entries carry the typed values.
- IPv4 and IPv6 address syntax, and the label checks of one-label names. These are the library predicates `isIPv4`, `isIPv6` and `isLabel`.
- The TTL rule of `Rdataset.add`. It is the library function `mergeTtl`. A freshly created set is given TTL 0.
- Equality of record values is structural in the model. The library compares canonical forms, for example names without regard to case, so two values the model tells apart may be one member there.
- Record types other than the six and SOA. No operation of the core reads or changes them; load and save carry them through.
- `delRecord` called with a type outside the six. The drivers only pass one of the six, which the argument schema enforces.
- The order of records within one type in `getRecords`. It is the library's iteration order, left open by `IsListing`.
- The Ansible plumbing: `main`, the argument schema and its defaults, the `choice_map` dispatch, `exit_json` and `fail_json`, and the `HAS_DNSPYTHON` import guard.
- Concurrent writers to the same zone file. The code does nothing about them.
- Characters are Dafny characters; the Python 2 byte strings and their encoding are not modelled.
- The foreign-typed empty record set that the NS lookup creates. It lies outside the six kinds the zone model holds; it is never saved, because the add always raises after creating it.

## Findings

| source | as written | input that shows it | evidently intended | confidence | as-written member | corrected member |
|---|---|---|---|---|---|---|
| library/dnszone.py:158 | the NS branch looks up `rdtype=NS`, the bare name, which `from dns.rdtypes.ANY import *` (line 110) rebinds to the module `dns.rdtypes.ANY.NS`; the lookup creates an empty set of that foreign type, and `rdataset.add` (line 160) raises `IncompatibleTypes` at its type check without adding the value | tag "NS", an owner inside the zone, data "host" (a valid label), TTL "3600" | `rdtype=dns.rdatatype.NS`, as the other branches do: the NS record is added and the call returns True | high, not executed | `ZoneOps.Add`, `ZoneOps.NsAddRaises` | `ZoneOps.IntendedAdd`, `ZoneOps.NsAddRaises` |
