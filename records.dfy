/** The values the zone editor works with: record types, owner names,
    typed record data, record sets, SOA records and the zone itself, plus
    the behaviours of the DNS library that the editor calls but does not
    define. */
module Records {

  import opened Wrappers

  /** The six record types the editor can add, list or delete, in the order
      its `rtypes` field lists them. */
  datatype Kind = NS | A | AAAA | MX | CNAME | TXT

  /** A domain name as its sequence of labels. Owner names are whatever the
      library makes of the owner text; targets built by the editor are always
      a single label. */
  datatype Name = Name(labels: seq<string>)

  /** Typed record data, one variant per supported kind. Addresses stay the
      text the library accepted. */
  datatype Rdata =
    | ARecord(address: string)
    | AaaaRecord(address: string)
    | NsRecord(target: Name)
    | MxRecord(preference: int, exchange: Name)
    | CnameRecord(target: Name)
    | TxtRecord(strings: seq<string>)

  function KindOf(rd: Rdata): Kind
  {
    match rd
    case ARecord(_) => A
    case AaaaRecord(_) => AAAA
    case NsRecord(_) => NS
    case MxRecord(_, _) => MX
    case CnameRecord(_) => CNAME
    case TxtRecord(_) => TXT
  }

  /** All records of one owner and one type: one TTL and a set of values. An
      empty record set is possible (the library creates one on lookup with
      `create=True`) and is treated as absent wherever the editor tests it. */
  datatype RecordSet = RecordSet(ttl: int, rdatas: set<Rdata>)

  /** Key of a record set. */
  datatype Key = Key(owner: Name, kind: Kind)

  /** SOA record data. Serials read from a zone file are unsigned 32-bit
      values; the editor only ever adds to them. */
  datatype Soa = Soa(mname: Name, rname: Name, serial: nat, refresh: int, retry: int, expire: int, minimum: int)

  /** One SOA record as the library enumerates it: owner, TTL of its set, data. */
  datatype SoaEntry = SoaEntry(owner: Name, ttl: int, rdata: Soa)

  /** The in-memory zone: the record sets of the six supported kinds by key,
      and the SOA records in the library's enumeration order. */
  datatype Zone = Zone(sets: map<Key, RecordSet>, soa: seq<SoaEntry>)

  /** One line of the listing the editor reports: type, owner, data, TTL. */
  datatype Entry = Entry(kind: Kind, owner: Name, data: Rdata, ttl: int)

  /** The exceptions an add can raise. */
  datatype Fault =
    | NotTwoFields   // unpacking `data.split(" ")` into preference and exchange
    | NotAnInteger   // `int()` of the preference or the TTL
    | BadAddress     // the A or AAAA constructor rejected the address
    | BadLabel       // building a one-label name rejected the label
    | NoRecordSet    // the lookup returned None, so `.add` was called on None
    | IncompatibleTypes // `.add` of a value whose type is not the set's type

  /** What the DNS library decides for the editor:
      - `isIPv4`, `isIPv6`: whether the A / AAAA constructor accepts the text;
      - `isLabel`: whether a one-label name can be built from the text;
      - `resolveOwner`: the zone's key name for an owner text, or None when
        the lookup rejects it (an absolute name outside the origin), in which
        case `get_rdataset` answers None;
      - `mergeTtl`: the TTL a record set has after `add(rdata, ttl=t)`, from
        the set before the add and `t`. */
  datatype Dnspython = Dnspython(
    isIPv4: string -> bool,
    isIPv6: string -> bool,
    isLabel: string -> bool,
    resolveOwner: string -> Option<Name>,
    mergeTtl: (RecordSet, int) -> int)

  /** Every value in a record set has the set's kind: what the library's
      typed record sets guarantee of a loaded zone. */
  predicate WellKinded(z: Zone)
  {
    forall key, rd :: key in z.sets && rd in z.sets[key].rdatas ==> KindOf(rd) == key.kind
  }
}
