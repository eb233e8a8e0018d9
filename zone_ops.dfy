/** What each operation of the zone editor does to a zone, as functions on
    zone values: the specification the `DnsZone` methods are proved
    against, and the properties of the editor stated about it. */
module ZoneOps {

  import opened Wrappers
  import opened Text
  import opened Records
  import opened Codec

  /** The record set the library creates on a lookup with `create=True`:
      no members, and the TTL of a fresh record set, 0. */
  const EmptySet: RecordSet := RecordSet(0, {})

  /** Python truthiness of the looked-up record set: it exists and has at
      least one member. */
  predicate NonEmptyAt(z: Zone, key: Key)
  {
    key in z.sets && z.sets[key].rdatas != {}
  }

  /** `z2` differs from `z` at most in the record set at `key`. */
  ghost predicate OnlyKeyChanged(z: Zone, z2: Zone, key: Key)
  {
    && z2.soa == z.soa
    && (forall k :: k != key ==> (k in z.sets <==> k in z2.sets))
    && (forall k :: k != key && k in z.sets ==> z2.sets[k] == z.sets[k])
  }

  /** The set found at `key`, or the one a lookup would create there. */
  function SetAt(z: Zone, key: Key): RecordSet
  {
    if key in z.sets then z.sets[key] else EmptySet
  }

  /** `get_rdataset(name, type, create=True)`: the existing set, or a new
      empty one. Creating it is the only change. */
  function FindOrCreate(z: Zone, key: Key): (r: Zone)
    ensures key in r.sets && r.sets[key] == SetAt(z, key)
    ensures OnlyKeyChanged(z, r, key)
    ensures key in z.sets ==> r == z
  {
    if key in z.sets then z else z.(sets := z.sets[key := EmptySet])
  }

  /** `z2` holds the set at `key` of `z` with `rd` added and its TTL merged
      with `t` by the library's rule. */
  predicate Inserted(lib: Dnspython, z: Zone, z2: Zone, key: Key, rd: Rdata, t: int)
  {
    && key in z2.sets
    && z2.sets[key].rdatas == SetAt(z, key).rdatas + {rd}
    && z2.sets[key].ttl == lib.mergeTtl(SetAt(z, key), t)
  }

  /** `rdataset.add(rdata, ttl=t)` on the set at `key`. */
  function Insert(lib: Dnspython, z: Zone, key: Key, rd: Rdata, t: int): (r: Zone)
    requires key in z.sets
    ensures Inserted(lib, z, r, key, rd, t)
    ensures OnlyKeyChanged(z, r, key)
  {
    var rs := z.sets[key];
    z.(sets := z.sets[key := RecordSet(lib.mergeTtl(rs, t), rs.rdatas + {rd})])
  }

  /** A zone after an operation, and what the operation returned or raised. */
  datatype Step = Step(zone: Zone, result: Result<bool, Fault>)

  /** Every record set that existed is still there unchanged; the only new
      sets are empty ones. */
  predicate NothingExistingChanged(z: Zone, z2: Zone)
  {
    && z2.soa == z.soa
    && (forall k :: k in z.sets ==> k in z2.sets && z2.sets[k] == z.sets[k])
    && (forall k :: k in z2.sets && k !in z.sets ==> z2.sets[k] == EmptySet)
  }

  /** The kinds whose branch of `addRecord` looks its record set up under a
      type that no record set of the six kinds has. As written this is NS:
      its branch passes the bare name `NS` (library/dnszone.py line 158),
      which `from dns.rdtypes.ANY import *` (line 110) has rebound from the
      type code to the module `dns.rdtypes.ANY.NS`. Every other branch passes
      `dns.rdatatype.X`. */
  const Rebound: set<Kind> := {NS}

  /** `DnsZone.addRecord(type, name, data, ttl)`, with the kinds in `stray`
      looked up under a foreign type. In the source's order: the tag selects
      a branch (none: return False); for MX the data is unpacked into two
      fields; the set is looked up with `create=True` (None for a rejected
      owner, a new empty set for a missing one, and for a stray kind a new
      empty set of the foreign type, which lies outside the zone's six
      kinds); the record value is built; `.add` is looked up on the set
      (raising on None); the TTL text goes through `int()`; `.add` raises
      when the set's type is not the value's, and otherwise adds the value
      and the call returns True. A raise leaves any set the lookup created. */
  function AddWith(stray: set<Kind>, lib: Dnspython, z: Zone, tag: string, owner: string, data: string, ttl: string): (st: Step)
    // any other tag: False, and nothing changes
    ensures ParseTag(tag).None? ==> st == Step(z, Ok(false))
    // the six tags never return False: they return True or raise
    ensures ParseTag(tag).Some? ==> st.result != Ok(false)
    // True leaves the decoded value in the set, next to the old members
    ensures st.result == Ok(true) ==>
      && ParseTag(tag).Some? && ParseTag(tag).value !in stray && lib.resolveOwner(owner).Some?
      && Decode(lib, ParseTag(tag).value, data).Ok? && ParseInt(ttl).Some?
      && Inserted(lib, z, st.zone, Key(lib.resolveOwner(owner).value, ParseTag(tag).value),
                  Decode(lib, ParseTag(tag).value, data).value, ParseInt(ttl).value)
    // only the requested (name, type) key is ever touched, and never the SOA
    ensures ParseTag(tag).Some? && lib.resolveOwner(owner).Some? ==>
      OnlyKeyChanged(z, st.zone, Key(lib.resolveOwner(owner).value, ParseTag(tag).value))
    ensures lib.resolveOwner(owner).None? ==> st.zone == z
    // a stray lookup leaves every set of the six kinds as it was
    ensures ParseTag(tag).Some? && ParseTag(tag).value in stray ==> st.zone == z
    // a raise changes no existing set
    ensures st.result.Err? ==> NothingExistingChanged(z, st.zone)
  {
    match ParseTag(tag)
    case None => Step(z, Ok(false))
    case Some(kind) =>
      if kind == MX && |Split(data, ' ')| != 2 then Step(z, Err(NotTwoFields))
      else
        var target := lib.resolveOwner(owner);
        var z1 := if target.Some? && kind !in stray then FindOrCreate(z, Key(target.value, kind)) else z;
        match Decode(lib, kind, data)
        case Err(f) => Step(z1, Err(f))
        case Ok(rd) =>
          if target.None? then Step(z1, Err(NoRecordSet))
          else
            match ParseInt(ttl)
            case None => Step(z1, Err(NotAnInteger))
            case Some(t) =>
              if kind in stray then Step(z1, Err(IncompatibleTypes))
              else Step(Insert(lib, z1, Key(target.value, kind), rd, t), Ok(true))
  }

  /** `addRecord` as written: the NS branch looks up a foreign type, so it
      never adds and never changes a record set of the six kinds. */
  function Add(lib: Dnspython, z: Zone, tag: string, owner: string, data: string, ttl: string): (st: Step)
    ensures ParseTag(tag) == Some(NS) ==> st.result != Ok(true) && st.zone == z
  {
    AddWith(Rebound, lib, z, tag, owner, data, ttl)
  }

  /** `addRecord` as evidently intended: every branch, NS included, looks
      up the set of its own type. */
  function IntendedAdd(lib: Dnspython, z: Zone, tag: string, owner: string, data: string, ttl: string): (st: Step)
    ensures st.result == Ok(true) <==>
      && ParseTag(tag).Some? && lib.resolveOwner(owner).Some?
      && Decode(lib, ParseTag(tag).value, data).Ok? && ParseInt(ttl).Some?
    ensures st.result == Ok(true) ==>
      Inserted(lib, z, st.zone, Key(lib.resolveOwner(owner).value, ParseTag(tag).value),
               Decode(lib, ParseTag(tag).value, data).value, ParseInt(ttl).value)
  {
    AddSucceeds({}, lib, z, tag, owner, data, ttl);
    AddWith({}, lib, z, tag, owner, data, ttl)
  }

  /** `addRecord` returns True exactly when the tag is one of the six and
      not looked up under a foreign type, and owner, data and TTL all go
      through. */
  lemma AddSucceeds(stray: set<Kind>, lib: Dnspython, z: Zone, tag: string, owner: string, data: string, ttl: string)
    ensures AddWith(stray, lib, z, tag, owner, data, ttl).result == Ok(true) <==>
      && ParseTag(tag).Some?
      && ParseTag(tag).value !in stray
      && lib.resolveOwner(owner).Some?
      && Decode(lib, ParseTag(tag).value, data).Ok?
      && ParseInt(ttl).Some?
  {
    if ParseTag(tag) == Some(MX) && |Split(data, ' ')| != 2 {
      SplitCount(data, ' ');
      assert Decode(lib, MX, data).Err?;
    }
  }

  /** As written, an NS add whose owner, label and TTL all go through raises
      `IncompatibleTypes` and changes nothing, where the intended add
      succeeds and leaves the NS record in the set at (name, NS). */
  lemma NsAddRaises(lib: Dnspython, z: Zone, owner: string, data: string, ttl: string)
    requires lib.resolveOwner(owner).Some? && lib.isLabel(data) && ParseInt(ttl).Some?
    ensures Add(lib, z, "NS", owner, data, ttl) == Step(z, Err(IncompatibleTypes))
    ensures IntendedAdd(lib, z, "NS", owner, data, ttl).result == Ok(true)
    ensures NsRecord(Name([data])) in
      IntendedAdd(lib, z, "NS", owner, data, ttl).zone.sets[Key(lib.resolveOwner(owner).value, NS)].rdatas
  {
    AddSucceeds({}, lib, z, "NS", owner, data, ttl);
  }

  /** Every raise but the MX unpacking comes after the lookup, so it leaves
      the zone as the lookup with `create=True` made it. */
  lemma RaiseAfterLookup(stray: set<Kind>, lib: Dnspython, z: Zone, tag: string, owner: string, data: string, ttl: string)
    requires AddWith(stray, lib, z, tag, owner, data, ttl).result.Err?
    requires AddWith(stray, lib, z, tag, owner, data, ttl).result != Err(NotTwoFields)
    requires ParseTag(tag).Some? && ParseTag(tag).value !in stray && lib.resolveOwner(owner).Some?
    ensures AddWith(stray, lib, z, tag, owner, data, ttl).zone ==
      FindOrCreate(z, Key(lib.resolveOwner(owner).value, ParseTag(tag).value))
  {
  }

  /** The MX unpacking raises, before any lookup, exactly on data without
      exactly one space. */
  lemma AddUnpackFault(stray: set<Kind>, lib: Dnspython, z: Zone, tag: string, owner: string, data: string, ttl: string)
    ensures AddWith(stray, lib, z, tag, owner, data, ttl).result == Err(NotTwoFields) <==>
      ParseTag(tag) == Some(MX) && Count(data, ' ') != 1
    ensures AddWith(stray, lib, z, tag, owner, data, ttl).result == Err(NotTwoFields) ==>
      AddWith(stray, lib, z, tag, owner, data, ttl).zone == z
  {
    SplitCount(data, ' ');
    if ParseTag(tag).Some? && ParseTag(tag) != Some(MX) {
      assert Decode(lib, ParseTag(tag).value, data) != Err(NotTwoFields);
    }
  }

  /** `.add` looked up on the None that a rejected owner yields raises
      exactly when the value could be built. */
  lemma AddOnRejectedOwner(stray: set<Kind>, lib: Dnspython, z: Zone, tag: string, owner: string, data: string, ttl: string)
    ensures AddWith(stray, lib, z, tag, owner, data, ttl).result == Err(NoRecordSet) <==>
      ParseTag(tag).Some? && lib.resolveOwner(owner).None? && Decode(lib, ParseTag(tag).value, data).Ok?
  {
    if ParseTag(tag) == Some(MX) && |Split(data, ' ')| != 2 {
      SplitCount(data, ' ');
      assert Decode(lib, MX, data).Err?;
    }
  }

  /** A zone after a delete, and whether the set was there. */
  datatype Deletion = Deletion(zone: Zone, removed: bool)

  /** `DnsZone.delRecord(type, name)`: look the set up (None for a missing
      set or a rejected owner); when it is there and non-empty, delete the
      whole set and return True, otherwise return False. */
  function Del(lib: Dnspython, z: Zone, kind: Kind, owner: string): (d: Deletion)
    ensures lib.resolveOwner(owner).None? ==> d == Deletion(z, false)
    ensures lib.resolveOwner(owner).Some? ==>
      d.removed == NonEmptyAt(z, Key(lib.resolveOwner(owner).value, kind))
    ensures lib.resolveOwner(owner).Some? ==>
      !NonEmptyAt(d.zone, Key(lib.resolveOwner(owner).value, kind))
    ensures d.removed ==>
      && lib.resolveOwner(owner).Some?
      && Key(lib.resolveOwner(owner).value, kind) !in d.zone.sets
      && OnlyKeyChanged(z, d.zone, Key(lib.resolveOwner(owner).value, kind))
    ensures !d.removed ==> d.zone == z
  {
    match lib.resolveOwner(owner)
    case None => Deletion(z, false)
    case Some(n) =>
      var key := Key(n, kind);
      if key in z.sets && z.sets[key].rdatas != {} then
        Deletion(z.(sets := z.sets - {key}), true)
      else Deletion(z, false)
  }

  /** `after` is `before` with the serial one higher and every other field
      as it was. */
  predicate SerialBumped(before: SoaEntry, after: SoaEntry)
  {
    && after.owner == before.owner
    && after.ttl == before.ttl
    && after.rdata.serial == before.rdata.serial + 1
    && after.rdata.mname == before.rdata.mname
    && after.rdata.rname == before.rdata.rname
    && after.rdata.refresh == before.rdata.refresh
    && after.rdata.retry == before.rdata.retry
    && after.rdata.expire == before.rdata.expire
    && after.rdata.minimum == before.rdata.minimum
  }

  /** A bumped SOA entry is determined by the one it was bumped from. */
  lemma SerialBumpedUnique(before: SoaEntry, a: SoaEntry, b: SoaEntry)
    requires SerialBumped(before, a) && SerialBumped(before, b)
    ensures a == b
  {
  }

  function Bump(e: SoaEntry): (r: SoaEntry)
    ensures SerialBumped(e, r)
  {
    e.(rdata := e.rdata.(serial := e.rdata.serial + 1))
  }

  /** `increaseSOASerial` on the SOA records: each serial exactly one higher,
      in the same order, no wrap-around. */
  function BumpSerials(soa: seq<SoaEntry>): (r: seq<SoaEntry>)
    ensures |r| == |soa|
    ensures forall i :: 0 <= i < |soa| ==> SerialBumped(soa[i], r[i])
  {
    if soa == [] then [] else [Bump(soa[0])] + BumpSerials(soa[1..])
  }

  /** The bump is plain integer addition: the largest 32-bit serial becomes
      2^32, a value a serial field cannot hold, where section 3.1 of RFC 1982
      would wrap it to 0. */
  lemma BumpPassesUint32(e: SoaEntry)
    requires e.rdata.serial == 0xFFFF_FFFF
    ensures Bump(e).rdata.serial == 0x1_0000_0000
    ensures Bump(e).rdata.serial != (e.rdata.serial + 1) % 0x1_0000_0000
  {
  }

  /** The zone after `increaseSOASerial`: record sets as they were. */
  function BumpZone(z: Zone): (r: Zone)
    ensures r.sets == z.sets
    ensures |r.soa| == |z.soa|
    ensures forall i :: 0 <= i < |z.soa| ==> SerialBumped(z.soa[i], r.soa[i])
  {
    z.(soa := BumpSerials(z.soa))
  }

  /** The zone holds the record an entry describes: the value is a member of
      the set at (owner, type) and the entry carries that set's TTL. */
  predicate Holds(z: Zone, e: Entry)
  {
    var key := Key(e.owner, e.kind);
    key in z.sets && e.data in z.sets[key].rdatas && e.ttl == z.sets[key].ttl
  }

  /** The records of one type, as `iterate_rdatas(type)` yields them. */
  function EntriesOf(z: Zone, k: Kind): (r: set<Entry>)
    ensures forall e :: e in r <==> Holds(z, e) && e.kind == k
  {
    var r := set key, rd | key in z.sets && key.kind == k && rd in z.sets[key].rdatas ::
      Entry(k, key.owner, rd, z.sets[key].ttl);
    assert forall e :: Holds(z, e) && e.kind == k ==> e in r by {
      forall e | Holds(z, e) && e.kind == k ensures e in r {
        var key := Key(e.owner, e.kind);
        assert Entry(k, key.owner, e.data, z.sets[key].ttl) == e;
      }
    }
    r
  }

  /** The entries of `rs` appear in the type order NS, A, AAAA, MX, CNAME,
      TXT. */
  predicate GroupedByType(rs: seq<Entry>)
  {
    forall i, j :: 0 <= i < j < |rs| ==> Rank(rs[i].kind) <= Rank(rs[j].kind)
  }

  predicate Distinct(rs: seq<Entry>)
  {
    forall i, j :: 0 <= i < j < |rs| ==> rs[i] != rs[j]
  }

  /** What `getRecords` may return for `z`: every record of the six types
      exactly once, grouped type by type in the fixed order; within a type
      the order is the library's iteration order, left open. */
  ghost predicate IsListing(z: Zone, rs: seq<Entry>)
  {
    && GroupedByType(rs)
    && Distinct(rs)
    && (forall e :: e in rs <==> Holds(z, e))
  }

  lemma {:induction false} DistinctOccurrences(rs: seq<Entry>, e: Entry)
    requires Distinct(rs)
    ensures multiset(rs)[e] == if e in rs then 1 else 0
  {
    if rs != [] {
      var tail := rs[1..];
      assert rs == [rs[0]] + tail;
      assert Distinct(tail) by {
        forall i, j | 0 <= i < j < |tail| ensures tail[i] != tail[j] {
          assert tail[i] == rs[i + 1] && tail[j] == rs[j + 1];
        }
      }
      DistinctOccurrences(tail, e);
      assert rs[0] !in tail by {
        forall i | 0 <= i < |tail| ensures tail[i] != rs[0] {
          assert tail[i] == rs[i + 1];
        }
      }
    }
  }

  /** Two listings of one zone hold the same records the same number of
      times: they can differ only in the order inside a type. */
  lemma ListingsAgree(z: Zone, r1: seq<Entry>, r2: seq<Entry>)
    requires IsListing(z, r1) && IsListing(z, r2)
    ensures multiset(r1) == multiset(r2)
    ensures |r1| == |r2|
  {
    forall e ensures multiset(r1)[e] == multiset(r2)[e] {
      DistinctOccurrences(r1, e);
      DistinctOccurrences(r2, e);
    }
    assert multiset(r1) == multiset(r2);
    assert |multiset(r1)| == |r1| && |multiset(r2)| == |r2|;
  }

  /** A listing taken after a successful delete has no record at the deleted
      (name, type), and still every record of every other key. */
  lemma ListingAfterDel(lib: Dnspython, z: Zone, kind: Kind, owner: string, rs: seq<Entry>)
    requires Del(lib, z, kind, owner).removed
    requires IsListing(Del(lib, z, kind, owner).zone, rs)
    ensures forall e :: e in rs ==> Key(e.owner, e.kind) != Key(lib.resolveOwner(owner).value, kind)
    ensures forall e :: Holds(z, e) && Key(e.owner, e.kind) != Key(lib.resolveOwner(owner).value, kind) ==> e in rs
  {
  }

  /** A listing taken after a successful add has the added value at the
      requested (name, type), with the set's merged TTL. */
  lemma ListingAfterAdd(stray: set<Kind>, lib: Dnspython, z: Zone, tag: string, owner: string, data: string, ttl: string,
                        rs: seq<Entry>)
    requires AddWith(stray, lib, z, tag, owner, data, ttl).result == Ok(true)
    requires IsListing(AddWith(stray, lib, z, tag, owner, data, ttl).zone, rs)
    ensures ParseTag(tag).Some? && lib.resolveOwner(owner).Some?
    ensures Decode(lib, ParseTag(tag).value, data).Ok? && ParseInt(ttl).Some?
    ensures
      var key := Key(lib.resolveOwner(owner).value, ParseTag(tag).value);
      Entry(key.kind, key.owner, Decode(lib, key.kind, data).value,
            lib.mergeTtl(SetAt(z, key), ParseInt(ttl).value)) in rs
  {
  }

  /** Adding keeps every value in a set of the set's own type. */
  lemma AddKeepsWellKinded(stray: set<Kind>, lib: Dnspython, z: Zone, tag: string, owner: string, data: string, ttl: string)
    requires WellKinded(z)
    ensures WellKinded(AddWith(stray, lib, z, tag, owner, data, ttl).zone)
  {
    var st := AddWith(stray, lib, z, tag, owner, data, ttl);
    forall key, rd | key in st.zone.sets && rd in st.zone.sets[key].rdatas
      ensures KindOf(rd) == key.kind
    {
      if key !in z.sets || st.zone.sets[key] != z.sets[key] {
        assert st.result == Ok(true);
      }
    }
  }
}
