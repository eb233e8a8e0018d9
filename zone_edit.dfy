/** The `DnsZone` class: a loaded zone that its methods change in place. */
module ZoneEdit {

  import opened Wrappers
  import opened Text
  import opened Records
  import opened Codec
  import opened ZoneOps

  class DnsZone {
    const relativize: bool
    const domain: string
    const zoneFile: string
    /** The types `getRecords` lists, in listing order. */
    const rtypes: seq<Kind> := Order
    /** The library the zone object delegates to. */
    const lib: Dnspython
    /** The library's zone object, changed in place by the methods below. */
    var zone: Zone

    /** The constructor, once `dns.zone.from_file(zone_file, domain,
        relativize=relativize)` has parsed the file into `loaded` (a parse
        failure raises before any object exists; the drivers model it). */
    constructor (zoneFile: string, domain: string, relativize: bool, lib: Dnspython, loaded: Zone)
      ensures this.zoneFile == zoneFile && this.domain == domain && this.relativize == relativize
      ensures this.lib == lib && zone == loaded
    {
      this.zoneFile := zoneFile;
      this.domain := domain;
      this.relativize := relativize;
      this.lib := lib;
      zone := loaded;
    }

    /** `save`: the whole current zone, untouched record sets included, is
        what `to_file` serialises to `zoneFile`. */
    method Save() returns (image: Zone)
      ensures image == zone
    {
      image := zone;
    }

    /** `getRecords`: for each type of `rtypes` in turn, every record of that
        type as (type, name, data, TTL). SOA and other types are never
        listed. */
    method GetRecords() returns (res: seq<Entry>)
      ensures IsListing(zone, res)
    {
      res := [];
      for i := 0 to |rtypes|
        invariant GroupedByType(res) && Distinct(res)
        invariant forall e :: e in res <==> Holds(zone, e) && Rank(e.kind) < i
      {
        var rtype := rtypes[i];
        assert Rank(rtype) == i;
        var pending := EntriesOf(zone, rtype);
        while pending != {}
          invariant GroupedByType(res) && Distinct(res)
          invariant forall e :: e in pending ==> e.kind == rtype && Holds(zone, e) && e !in res
          invariant forall e :: e in res <==>
            Holds(zone, e) && (Rank(e.kind) < i || (e.kind == rtype && e !in pending))
          decreases pending
        {
          var e :| e in pending;
          res := res + [e];
          pending := pending - {e};
        }
      }
    }

    /** `increaseSOASerial`: every SOA serial one higher, nothing else
        changed. */
    method IncreaseSOASerial()
      modifies this
      ensures zone == BumpZone(old(zone))
    {
      var i := 0;
      while i < |zone.soa|
        invariant 0 <= i <= |zone.soa| == |old(zone.soa)|
        invariant zone.sets == old(zone.sets)
        invariant forall j :: 0 <= j < i ==> SerialBumped(old(zone.soa)[j], zone.soa[j])
        invariant forall j :: i <= j < |zone.soa| ==> zone.soa[j] == old(zone.soa)[j]
      {
        var entry := zone.soa[i];
        zone := zone.(soa := zone.soa[i := entry.(rdata := entry.rdata.(serial := entry.rdata.serial + 1))]);
        i := i + 1;
      }
      ghost var bumped := BumpZone(old(zone));
      assert zone.soa == bumped.soa by {
        forall j | 0 <= j < |zone.soa| ensures zone.soa[j] == bumped.soa[j] {
          SerialBumpedUnique(old(zone.soa)[j], zone.soa[j], bumped.soa[j]);
        }
      }
    }

    /** `delRecord(type, name)`: the whole set at (name, type) goes when the
        lookup finds a non-empty one, and the call says whether it did. */
    method DelRecord(kind: Kind, owner: string) returns (removed: bool)
      modifies this
      ensures Deletion(zone, removed) == Del(lib, old(zone), kind, owner)
    {
      var target := lib.resolveOwner(owner);
      if target.None? {
        return false;
      }
      var key := Key(target.value, kind);
      if key in zone.sets && zone.sets[key].rdatas != {} {
        zone := zone.(sets := zone.sets - {key});
        return true;
      }
      return false;
    }

    /** `addRecord(type, name, data, ttl)`: the branch for the tag, in the
        source's order of steps, changing the zone as `Add` says. */
    method AddRecord(tag: string, owner: string, data: string, ttl: string) returns (r: Result<bool, Fault>)
      modifies this
      ensures Step(zone, r) == Add(lib, old(zone), tag, owner, data, ttl)
    {
      var kind := ParseTag(tag);
      if kind.None? {
        return Ok(false);
      }
      if kind.value == MX && |Split(data, ' ')| != 2 {
        return Err(NotTwoFields);
      }
      // get_rdataset(name, type, create=True); for a rebound type name the
      // new empty set is of a foreign type, outside the zone's six kinds
      var target := lib.resolveOwner(owner);
      if target.Some? && kind.value !in Rebound {
        zone := FindOrCreate(zone, Key(target.value, kind.value));
      }
      var rdata := Decode(lib, kind.value, data);
      if rdata.Err? {
        return Err(rdata.error);
      }
      if target.None? {
        return Err(NoRecordSet);
      }
      var t := ParseInt(ttl);
      if t.None? {
        return Err(NotAnInteger);
      }
      if kind.value in Rebound {
        return Err(IncompatibleTypes);
      }
      var key := Key(target.value, kind.value);
      var rdataset := zone.sets[key];
      zone := zone.(sets := zone.sets[key := RecordSet(lib.mergeTtl(rdataset, t.value), rdataset.rdatas + {rdata.value})]);
      return Ok(true);
    }
  }
}
