/** The per-type record codec of `DnsZone.addRecord`: the type tag dispatch
    and the translation of the data string into a typed record value. */
module Codec {

  import opened Wrappers
  import opened Text
  import opened Records

  /** The type tags in the order of the editor's `rtypes` list. */
  const Tags: seq<string> := ["NS", "A", "AAAA", "MX", "CNAME", "TXT"]

  /** Listing order of the kinds: NS, A, AAAA, MX, CNAME, TXT. */
  const Order: seq<Kind> := [NS, A, AAAA, MX, CNAME, TXT]

  function TagOf(k: Kind): string
  {
    match k
    case NS => "NS"
    case A => "A"
    case AAAA => "AAAA"
    case MX => "MX"
    case CNAME => "CNAME"
    case TXT => "TXT"
  }

  /** Position of a kind in the listing order. */
  function Rank(k: Kind): (i: nat)
    ensures i < |Order| && Order[i] == k && Tags[i] == TagOf(k)
  {
    match k
    case NS => 0
    case A => 1
    case AAAA => 2
    case MX => 3
    case CNAME => 4
    case TXT => 5
  }

  /** The chain of exact, case-sensitive tag comparisons in `addRecord`:
      one of the six tags selects its kind, any other string selects none. */
  function ParseTag(tag: string): (r: Option<Kind>)
    ensures r.Some? <==> tag in Tags
    ensures r.Some? ==> TagOf(r.value) == tag
  {
    if tag == "A" then Some(A)
    else if tag == "AAAA" then Some(AAAA)
    else if tag == "NS" then Some(NS)
    else if tag == "MX" then Some(MX)
    else if tag == "CNAME" then Some(CNAME)
    else if tag == "TXT" then Some(TXT)
    else None
  }

  lemma ParseTagOf(k: Kind)
    ensures ParseTag(TagOf(k)) == Some(k)
  {
  }

  /** `data` is a preference text that `int()` reads as `preference`, one
      space, and `host`, which holds no space. */
  predicate IsMxText(data: string, preference: int, host: string)
  {
    var cut := |data| - |host| - 1;
    && 0 <= cut && data[cut] == ' ' && data[cut + 1..] == host
    && ' ' !in host
    && ParseInt(data[..cut]) == Some(preference)
  }

  /** MX data: exactly two space-separated fields (the unpacking raises
      otherwise), a preference read by `int()`, and an exchange that is a
      one-label name whose label is the second field verbatim. */
  function DecodeMx(lib: Dnspython, data: string): (r: Result<Rdata, Fault>)
    ensures r == Err(NotTwoFields) <==> Count(data, ' ') != 1
    ensures r.Ok? ==>
      && r.value.MxRecord? && KindOf(r.value) == MX
      && |r.value.exchange.labels| == 1
      && lib.isLabel(r.value.exchange.labels[0])
  {
    var fields := Split(data, ' ');
    SplitCount(data, ' ');
    if |fields| != 2 then Err(NotTwoFields)
    else
      match ParseInt(fields[0])
      case None => Err(NotAnInteger)
      case Some(preference) =>
        if lib.isLabel(fields[1]) then Ok(MxRecord(preference, Name([fields[1]])))
        else Err(BadLabel)
  }

  /** What a decoded MX record says about its data: the preference text,
      one space, and the exchange label verbatim. */
  lemma DecodeMxText(lib: Dnspython, data: string)
    requires DecodeMx(lib, data).Ok?
    ensures IsMxText(data, DecodeMx(lib, data).value.preference, DecodeMx(lib, data).value.exchange.labels[0])
  {
    var fields := Split(data, ' ');
    SplitCount(data, ' ');
    JoinSplit(data, ' ');
    var f0, f1 := fields[0], fields[1];
    assert data == f0 + [' '] + f1 by {
      assert fields[1..] == [f1];
      assert Join(fields[1..], ' ') == f1;
    }
    var cut := |data| - |f1| - 1;
    assert cut == |f0|;
    assert data[cut] == ' ';
    assert data[cut + 1..] == f1;
    assert data[..cut] == f0;
  }

  /** TXT data: the `;`-separated segments in order, at least one, none
      containing `;`, and joined with `;` they give the data back. */
  function DecodeTxt(data: string): (r: Rdata)
    ensures r.TxtRecord?
    ensures |r.strings| >= 1 && |r.strings| == Count(data, ';') + 1
    ensures Join(r.strings, ';') == data
    ensures forall i :: 0 <= i < |r.strings| ==> ';' !in r.strings[i]
  {
    SplitCount(data, ';');
    JoinSplit(data, ';');
    TxtRecord(Split(data, ';'))
  }

  /** A name target (NS, CNAME): one label, the whole data string. */
  function DecodeTarget(lib: Dnspython, data: string): (r: Result<Name, Fault>)
    ensures r.Ok? <==> lib.isLabel(data)
    ensures r.Ok? ==> r.value.labels == [data]
  {
    if lib.isLabel(data) then Ok(Name([data])) else Err(BadLabel)
  }

  /** The record constructor each branch of `addRecord` calls. A decoded
      value always has the requested kind. */
  function Decode(lib: Dnspython, kind: Kind, data: string): (r: Result<Rdata, Fault>)
    ensures r.Ok? ==> KindOf(r.value) == kind
    ensures kind == A ==> (r.Ok? <==> lib.isIPv4(data))
    ensures kind == AAAA ==> (r.Ok? <==> lib.isIPv6(data))
    ensures (kind == A || kind == AAAA) && r.Err? ==> r.error == BadAddress
    ensures kind == TXT ==> r.Ok?
  {
    match kind
    case A => if lib.isIPv4(data) then Ok(ARecord(data)) else Err(BadAddress)
    case AAAA => if lib.isIPv6(data) then Ok(AaaaRecord(data)) else Err(BadAddress)
    case NS =>
      (match DecodeTarget(lib, data)
       case Ok(n) => Ok(NsRecord(n))
       case Err(f) => Err(f))
    case MX => DecodeMx(lib, data)
    case CNAME =>
      (match DecodeTarget(lib, data)
       case Ok(n) => Ok(CnameRecord(n))
       case Err(f) => Err(f))
    case TXT => Ok(DecodeTxt(data))
  }

  /** The data text of an MX record as a user writes it: preference, one
      space, exchange label. */
  function EncodeMx(preference: int, host: string): string
  {
    ShowInt(preference) + " " + host
  }

  lemma {:induction false} ShowIntNoSpace(n: int)
    ensures ' ' !in ShowInt(n)
  {
    var s := ShowInt(n);
    var digits := ShowNat(if n < 0 then -n else n);
    forall i | 0 <= i < |s| ensures s[i] != ' ' {
      if n < 0 {
        assert s == "-" + digits;
        if i > 0 {
          assert s[i] == digits[i - 1];
          assert IsDigit(digits[i - 1]);
        }
      } else {
        assert IsDigit(s[i]);
      }
    }
  }

  /** The two fields of an MX text are its preference text and its label. */
  lemma SplitMxText(p: string, host: string)
    requires ' ' !in p && ' ' !in host
    ensures Split(p + " " + host, ' ') == [p, host]
  {
    assert Join([p, host], ' ') == p + " " + host by {
      assert [p, host][1..] == [host];
    }
    SplitJoin([p, host], ' ');
  }

  /** Decoding the text of an MX record gives the record back. */
  lemma DecodeEncodeMx(lib: Dnspython, preference: int, host: string)
    requires ' ' !in host && lib.isLabel(host)
    ensures DecodeMx(lib, EncodeMx(preference, host)) == Ok(MxRecord(preference, Name([host])))
  {
    ShowIntNoSpace(preference);
    SplitMxText(ShowInt(preference), host);
    ParseIntShowInt(preference);
  }

  /** Decoding `;`-joined segments gives the segments back, in order. */
  lemma DecodeJoinedTxt(strings: seq<string>)
    requires |strings| >= 1
    requires forall i :: 0 <= i < |strings| ==> ';' !in strings[i]
    ensures DecodeTxt(Join(strings, ';')) == TxtRecord(strings)
  {
    SplitJoin(strings, ';');
  }
}
