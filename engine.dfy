/** The two drivers, `state_present` and `state_absent`: load the zone, make
    the one change, bump the SOA serial when something changed and the
    caller asked for it, save when something changed, and report. */
module Engine {

  import opened Wrappers
  import opened Records
  import opened Codec
  import opened ZoneOps
  import opened ZoneEdit

  /** The module parameters the drivers read. The type is one of the six
      choices the argument schema admits. */
  datatype Params = Params(
    file: string,
    domain: string,
    kind: Kind,
    name: string,
    data: string,
    ttl: string,
    relativize: bool,
    updateSerial: bool)

  /** Second half of a driver's result: the listing, or a message. */
  datatype Payload = Listing(records: seq<Entry>) | Message(text: string)

  /** What a driver does: return `(changed, payload)` having written
      `saved` to the zone file (None: no write), or raise `fault` before
      any write. */
  datatype Outcome =
    | Returned(changed: bool, payload: Payload, saved: Option<Zone>)
    | Raised(fault: Fault)

  const OpenFailure: string := "Can not open zone file."

  /** The tail both drivers share, from the zone `z` after the change and
      the changed flag: the serial is bumped only when changed and asked
      for, the zone is saved only when changed, and the listing is of the
      zone as it ends up. */
  ghost predicate Finishes(z: Zone, changed: bool, updateSerial: bool, o: Outcome)
  {
    var final := if changed && updateSerial then BumpZone(z) else z;
    && o.Returned? && o.changed == changed
    && o.saved == (if changed then Some(final) else None)
    && o.payload.Listing? && IsListing(final, o.payload.records)
  }

  /** An exception from the change propagates before anything is saved;
      otherwise the tail runs. */
  ghost predicate Concludes(st: Step, updateSerial: bool, o: Outcome)
  {
    match st.result
    case Err(f) => o == Raised(f)
    case Ok(changed) => Finishes(st.zone, changed, updateSerial, o)
  }

  /** `state_present`. `loaded` is what `dns.zone.from_file` made of the
      zone file (None: it raised). */
  method StatePresent(lib: Dnspython, p: Params, loaded: Option<Zone>) returns (o: Outcome)
    ensures loaded.None? ==> o == Returned(false, Message(OpenFailure), None)
    ensures loaded.Some? ==>
      Concludes(Add(lib, loaded.value, TagOf(p.kind), p.name, p.data, p.ttl), p.updateSerial, o)
    ensures o.Returned? ==> (o.saved.Some? <==> o.changed)
  {
    if loaded.None? {
      return Returned(false, Message(OpenFailure), None);
    }
    var wzone := new DnsZone(p.file, p.domain, p.relativize, lib, loaded.value);
    var r := wzone.AddRecord(TagOf(p.kind), p.name, p.data, p.ttl);
    if r.Err? {
      return Raised(r.error);
    }
    var hasChanged := r.value;
    var saved := None;
    if hasChanged {
      if p.updateSerial {
        wzone.IncreaseSOASerial();
      }
      var image := wzone.Save();
      saved := Some(image);
    }
    var records := wzone.GetRecords();
    o := Returned(hasChanged, Listing(records), saved);
  }

  /** `state_absent`, with `loaded` as for `StatePresent`. */
  method StateAbsent(lib: Dnspython, p: Params, loaded: Option<Zone>) returns (o: Outcome)
    ensures loaded.None? ==> o == Returned(false, Message(OpenFailure), None)
    ensures loaded.Some? ==>
      var d := Del(lib, loaded.value, p.kind, p.name);
      Finishes(d.zone, d.removed, p.updateSerial, o)
    ensures o.Returned?
    ensures o.saved.Some? <==> o.changed
  {
    if loaded.None? {
      return Returned(false, Message(OpenFailure), None);
    }
    var wzone := new DnsZone(p.file, p.domain, p.relativize, lib, loaded.value);
    var hasChanged := wzone.DelRecord(p.kind, p.name);
    var saved := None;
    if hasChanged {
      if p.updateSerial {
        wzone.IncreaseSOASerial();
      }
      var image := wzone.Save();
      saved := Some(image);
    }
    var records := wzone.GetRecords();
    o := Returned(hasChanged, Listing(records), saved);
  }

  /** Once the zone has loaded, `state_present` never reports "unchanged": it
      either raises or returns changed, saves, and (when asked) bumps the
      serial. */
  lemma PresentAlwaysChanges(lib: Dnspython, p: Params, z: Zone, o: Outcome)
    requires Concludes(Add(lib, z, TagOf(p.kind), p.name, p.data, p.ttl), p.updateSerial, o)
    ensures o.Returned? ==> o.changed && o.saved.Some?
    ensures o.Returned? && p.updateSerial ==> o.saved.value.soa == BumpSerials(z.soa)
  {
    ParseTagOf(p.kind);
  }

  /** Once the zone has loaded, `state_present` for type NS never writes:
      its add raises (or, for a rejected value, raises earlier), and the
      exception propagates. */
  lemma PresentOfNsRaises(lib: Dnspython, p: Params, z: Zone, o: Outcome)
    requires p.kind == NS
    requires Concludes(Add(lib, z, TagOf(p.kind), p.name, p.data, p.ttl), p.updateSerial, o)
    ensures o.Raised?
  {
    ParseTagOf(p.kind);
  }

  /** Running `state_present` again with the same parameters on the zone it
      saved adds nothing to the record set, yet reports changed again (and
      bumps the serial again when asked): a repeated identical "present" is
      not idempotent in its changed flag. */
  lemma RepeatedPresentStillChanges(lib: Dnspython, p: Params, z: Zone, o1: Outcome, o2: Outcome)
    requires Concludes(Add(lib, z, TagOf(p.kind), p.name, p.data, p.ttl), p.updateSerial, o1)
    requires o1.Returned? && o1.saved.Some?
    requires Concludes(Add(lib, o1.saved.value, TagOf(p.kind), p.name, p.data, p.ttl), p.updateSerial, o2)
    ensures o2.Returned? && o2.changed && o2.saved.Some?
    ensures o2.saved.value.sets.Keys == o1.saved.value.sets.Keys
    ensures forall k :: k in o1.saved.value.sets ==>
      o2.saved.value.sets[k].rdatas == o1.saved.value.sets[k].rdatas
  {
    ParseTagOf(p.kind);
    var z1 := o1.saved.value;
    var st1 := Add(lib, z, TagOf(p.kind), p.name, p.data, p.ttl);
    var st2 := Add(lib, z1, TagOf(p.kind), p.name, p.data, p.ttl);
    assert st1.result == Ok(true);
    assert z1.sets == st1.zone.sets;
    assert st2.result == Ok(true);
  }

  /** `state_absent` for a (name, type) with no non-empty record set
      reports unchanged, writes nothing, and lists the zone as loaded. */
  lemma AbsentOfMissingRecord(lib: Dnspython, p: Params, z: Zone, o: Outcome)
    requires lib.resolveOwner(p.name).Some? ==> !NonEmptyAt(z, Key(lib.resolveOwner(p.name).value, p.kind))
    requires var d := Del(lib, z, p.kind, p.name); Finishes(d.zone, d.removed, p.updateSerial, o)
    ensures o.Returned? && !o.changed && o.saved.None?
    ensures o.payload.Listing? && IsListing(z, o.payload.records)
  {
  }
}
