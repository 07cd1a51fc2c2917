/** The per-kind record builders of setupZoneData: raw-value normalisation
    and one builder per record kind. */
module Builders {
  import opened Results
  import opened Json
  import opened Coercion
  import opened Dns
  import opened ZoneData

  /** The six record keys a label may carry. */
  datatype Kind = KindA | KindAAAA | KindNS | KindCNAME | KindMX | KindAlias {

    /** The key of the kind in a label object. */
    function Key(): string {
      match this
      case KindA => "a"
      case KindAAAA => "aaaa"
      case KindNS => "ns"
      case KindCNAME => "cname"
      case KindMX => "mx"
      case KindAlias => "alias"
    }

    /** The record type the kind is stored under; aliases become MF. */
    function Type(): RRType {
      match this
      case KindA => TypeA
      case KindAAAA => TypeAAAA
      case KindNS => TypeNS
      case KindCNAME => TypeCNAME
      case KindMX => TypeMX
      case KindAlias => TypeMF
    }
  }

  const AllKinds: seq<Kind> := [KindA, KindAAAA, KindNS, KindCNAME, KindMX, KindAlias]

  /** The record types some kind produces: a label holds no other. */
  const KindTypes: set<RRType> := set i | 0 <= i < |AllKinds| :: AllKinds[i].Type()

  /** NS records never get a TTL below one day. */
  const NsTtlFloor: nat := 86400

  /** One normalised entry: a decoded JSON value, or a `[]string{key, value}`
      pair made from an object value. */
  datatype Entry = Item(value: Json) | Pair(key: string, text: string)

  /** The text a pair takes from an object member's value: null reads as "". */
  function PairText(v: Json): string {
    if v.JString? then v.s else ""
  }

  predicate IsPairValue(v: Json) {
    v.JNull? || v.JString?
  }

  function NormalizeMembers(ms: Members<Json>, owner: string, kind: Kind): (r: Result<seq<Entry>>)
    ensures r.Success? <==> forall i | 0 <= i < |ms| :: IsPairValue(ms[i].1)
    ensures r.Success? ==> |r.value| == |ms|
    ensures r.Success? ==> forall i | 0 <= i < |ms| :: r.value[i] == Pair(ms[i].0, PairText(ms[i].1))
  {
    if |ms| == 0 then Success([])
    else if IsPairValue(ms[0].1) then
      var rest :- NormalizeMembers(ms[1..], owner, kind);
      Success([Pair(ms[0].0, PairText(ms[0].1))] + rest)
    else Failure(BadRecord(owner, kind.Key()))
  }

  /** The raw value of a kind as a list of entries: an object becomes one
      pair per member, a string a one-entry list, an array its elements;
      any other value is rejected. */
  function Normalize(rdata: Json, owner: string, kind: Kind): (r: Result<seq<Entry>>)
    ensures rdata.JObject? ==>
      (r.Success? <==> forall i | 0 <= i < |rdata.members| :: IsPairValue(rdata.members[i].1))
    ensures rdata.JObject? && r.Success? ==>
      |r.value| == |rdata.members| &&
      forall i | 0 <= i < |r.value| ::
        r.value[i] == Pair(rdata.members[i].0, PairText(rdata.members[i].1))
    ensures rdata.JString? ==> r.Success? && r.value == [Item(rdata)]
    ensures rdata.JArray? ==>
      r.Success? && |r.value| == |rdata.items| &&
      forall i | 0 <= i < |r.value| :: r.value[i] == Item(rdata.items[i])
    ensures !rdata.JObject? && !rdata.JString? && !rdata.JArray? ==> r.Failure?
  {
    match rdata
    case JObject(ms) => NormalizeMembers(ms, owner, kind)
    case JString(_) => Success([Item(rdata)])
    case JArray(xs) => Success(seq(|xs|, i requires 0 <= i < |xs| => Item(xs[i])))
    case _ => Failure(BadRecord(owner, kind.Key()))
  }

  /** The header every record of a label gets: owner `label.origin.`, class IN,
      the kind's type code and the label ttl as a uint32. */
  function RecordHeader(kind: Kind, owner: string, origin: string, ttl: int): (h: Header)
    ensures IsFqdn(h.name) && |h.name| > |owner| && h.name[..|owner|] == owner && h.name[|owner|] == '.'
    ensures h.name[|owner| + 1..] == origin + "."
    ensures h.rrclass == ClassINET && h.rrtype == kind.Type().Code()
    ensures h.ttl < TwoTo32 && (ttl - h.ttl) % TwoTo32 == 0
  {
    Header(owner + "." + origin + ".", kind.Type().Code(), ClassINET, Uint32(ttl))
  }

  /** The weight of an address entry `[address, weight]`: a string goes
      through Atoi, a number is truncated, any other value counts as 0. */
  function AddressWeight(xs: seq<Json>): (r: Result<int>)
    ensures |xs| <= 1 ==> r == Success(0)
    ensures |xs| > 1 && xs[1].JString? ==>
      (r.Success? <==> IsIntLiteral(xs[1].s)) &&
      (r.Success? ==> r.value == LiteralValue(xs[1].s))
    ensures |xs| > 1 && xs[1].JNumber? ==> r == Success(Trunc(xs[1].n))
    ensures |xs| > 1 && !xs[1].JString? && !xs[1].JNumber? ==> r == Success(0)
  {
    if |xs| > 1 then
      match xs[1]
      case JString(s) =>
        (match Atoi(s)
         case Some(w) => Success(w)
         case None => Failure(BadValue("weight is not a decimal integer")))
      case JNumber(n) => Success(Trunc(n))
      case _ => Success(0)
    else Success(0)
  }

  /** An MX field read with `rec[key] != nil`: absent or null gives 0. */
  function FieldInt(ms: seq<(string, Json)>, key: string): (r: Result<int>)
    ensures Lookup(ms, key).None? || Lookup(ms, key).value.JNull? ==> r == Success(0)
    ensures Lookup(ms, key).Some? && Lookup(ms, key).value.JString? ==>
      var s := Lookup(ms, key).value.s;
      (r.Success? <==> IsIntLiteral(s)) && (r.Success? ==> r.value == LiteralValue(s))
    ensures Lookup(ms, key).Some? && Lookup(ms, key).value.JNumber? ==>
      r == Success(Trunc(Lookup(ms, key).value.n))
    ensures Lookup(ms, key).Some? && (Lookup(ms, key).value.JBool? || Lookup(ms, key).value.JArray? || Lookup(ms, key).value.JObject?) ==>
      r.Failure?
  {
    if Present(ms, key) then ValueToInt(Lookup(ms, key).value) else Success(0)
  }

  /** An address entry A and AAAA accept: a list whose first element is a
      string the address parser accepts, with a usable weight. */
  predicate IsAddressEntry(e: Entry, isIP: string -> bool) {
    && e.Item? && e.value.JArray? && |e.value.items| > 0
    && e.value.items[0].JString? && isIP(e.value.items[0].s)
    && AddressWeight(e.value.items).Success?
  }

  /** An MX entry: an object whose `mx` is a string and whose weight and
      preference, when given, are integers. */
  predicate IsMxEntry(e: Entry) {
    && e.Item? && e.value.JObject?
    && Lookup(e.value.members, "mx").Some? && Lookup(e.value.members, "mx").value.JString?
    && FieldInt(e.value.members, "weight").Success?
    && FieldInt(e.value.members, "preference").Success?
  }

  /** An A or AAAA entry `[address]` or `[address, weight]`; the address
      must parse, and a string weight must be an integer. */
  function BuildAddress(kind: Kind, e: Entry, h: Header, owner: string,
                        isIP: string -> bool): (r: Result<Record>)
    requires kind == KindA || kind == KindAAAA
    ensures r.Success? <==> IsAddressEntry(e, isIP)
    ensures r.Success? ==>
      && r.value.rr.hdr == h
      && r.value.rr.data == (if kind == KindA then A(e.value.items[0].s) else AAAA(e.value.items[0].s))
      && Success(r.value.weight) == AddressWeight(e.value.items)
  {
    if e.Item? && e.value.JArray? && |e.value.items| > 0 && e.value.items[0].JString? then
      var ip := e.value.items[0].s;
      var w :- AddressWeight(e.value.items);
      if isIP(ip) then
        Success(Record(RR(h, if kind == KindA then A(ip) else AAAA(ip)), w))
      else Failure(BadRecord(owner, kind.Key()))
    else Failure(BadRecord(owner, kind.Key()))
  }

  /** An MX entry: the exchange made fully qualified, the preference cut to
      16 bits, the weight when given. */
  function BuildMx(e: Entry, h: Header, owner: string): (r: Result<Record>)
    ensures r.Success? <==> IsMxEntry(e)
    ensures r.Success? ==>
      && r.value.rr.hdr == h
      && r.value.rr.data.MX?
      && r.value.rr.data.mx == Fqdn(Lookup(e.value.members, "mx").value.s)
      && Success(r.value.rr.data.preference) == FieldInt(e.value.members, "preference").MapValue(Uint16)
      && Success(r.value.weight) == FieldInt(e.value.members, "weight")
  {
    if e.Item? && e.value.JObject? && Lookup(e.value.members, "mx").Some?
       && Lookup(e.value.members, "mx").value.JString?
    then
      var ms := e.value.members;
      // the HasSuffix(mx, ".") test of setupZoneData is exactly dns.Fqdn
      var mx := Fqdn(Lookup(ms, "mx").value.s);
      var w :- FieldInt(ms, "weight");
      var pref :- FieldInt(ms, "preference");
      Success(Record(RR(h, MX(mx, Uint16(pref))), w))
    else Failure(BadRecord(owner, KindMX.Key()))
  }

  /** A CNAME entry: a relative target is completed with the origin, and the
      result made fully qualified. */
  function BuildCname(e: Entry, h: Header, owner: string, origin: string): (r: Result<Record>)
    ensures r.Success? <==> e.Item? && e.value.JString?
    ensures r.Success? ==>
      var t := e.value.s;
      && r.value.rr.hdr == h && r.value.weight == 0 && r.value.rr.data.CNAME?
      && IsFqdn(r.value.rr.data.target)
      && (IsFqdn(t) ==> r.value.rr.data.target == t)
      && (!IsFqdn(t) ==> r.value.rr.data.target == Fqdn(t + "." + origin))
      && (!IsFqdn(t) && origin != "" && !IsFqdn(origin) ==>
            r.value.rr.data.target == t + "." + origin + ".")
  {
    if e.Item? && e.value.JString? then
      var t := e.value.s;
      var target := if IsFqdn(t) then t else t + "." + origin;
      Success(Record(RR(h, CNAME(Fqdn(target))), 0))
    else Failure(BadRecord(owner, KindCNAME.Key()))
  }

  /** An NS entry: a string or an object member's name, made fully
      qualified, with the TTL raised to the one-day floor. */
  function BuildNs(e: Entry, h: Header, owner: string): (r: Result<Record>)
    ensures r.Success? <==> e.Pair? || (e.Item? && e.value.JString?)
    ensures r.Success? ==>
      && r.value.rr.hdr == h.(ttl := if h.ttl < NsTtlFloor then NsTtlFloor else h.ttl)
      && r.value.weight == 0 && r.value.rr.data.NS?
      && (e.Pair? ==> r.value.rr.data.ns == Fqdn(e.key))
      && (e.Item? ==> r.value.rr.data.ns == Fqdn(e.value.s))
  {
    var nh := h.(ttl := if h.ttl < NsTtlFloor then NsTtlFloor else h.ttl);
    if e.Item? && e.value.JString? then Success(Record(RR(nh, NS(Fqdn(e.value.s))), 0))
    else if e.Pair? then Success(Record(RR(nh, NS(Fqdn(e.key))), 0))
    else Failure(BadRecord(owner, KindNS.Key()))
  }

  /** One entry of one kind of one label as a record; isIP stands for
      net.ParseIP returning non-nil. */
  function BuildRecord(kind: Kind, e: Entry, owner: string, origin: string, ttl: int,
                       isIP: string -> bool): (r: Result<Record>)
    // header
    ensures r.Success? ==> r.value.rr.hdr.name == owner + "." + origin + "."
    ensures r.Success? ==> r.value.rr.hdr.rrclass == ClassINET
    ensures r.Success? ==> r.value.rr.hdr.rrtype == kind.Type().Code()
    ensures r.Success? ==> DataType(r.value.rr.data) == kind.Type()
    ensures r.Success? && kind != KindNS ==> r.value.rr.hdr.ttl == Uint32(ttl)
    ensures r.Success? && kind == KindNS ==>
      r.value.rr.hdr.ttl == if Uint32(ttl) < NsTtlFloor then NsTtlFloor else Uint32(ttl)
    // which shapes each kind accepts
    ensures e.Pair? ==> (r.Success? <==> kind == KindNS)
    ensures e.Item? && e.value.JString? ==>
      (r.Success? <==> kind == KindNS || kind == KindCNAME || kind == KindAlias)
    ensures kind == KindA || kind == KindAAAA ==> (r.Success? <==> IsAddressEntry(e, isIP))
    ensures kind == KindMX ==> (r.Success? <==> IsMxEntry(e))
    ensures kind == KindCNAME || kind == KindAlias ==> (r.Success? <==> e.Item? && e.value.JString?)
    // record data and weight
    ensures r.Success? && (kind == KindA || kind == KindAAAA) ==>
      r.value.rr.data == (if kind == KindA then A(e.value.items[0].s) else AAAA(e.value.items[0].s)) &&
      Success(r.value.weight) == AddressWeight(e.value.items)
    ensures r.Success? && kind == KindMX ==>
      && r.value.rr.data.mx == Fqdn(Lookup(e.value.members, "mx").value.s)
      && Success(r.value.rr.data.preference) ==
           FieldInt(e.value.members, "preference").MapValue(Uint16)
      && Success(r.value.weight) == FieldInt(e.value.members, "weight")
    ensures r.Success? && kind == KindCNAME ==>
      var t := e.value.s;
      && IsFqdn(r.value.rr.data.target)
      && (IsFqdn(t) ==> r.value.rr.data.target == t)
      && (!IsFqdn(t) ==> r.value.rr.data.target == Fqdn(t + "." + origin))
      && (!IsFqdn(t) && origin != "" && !IsFqdn(origin) ==>
            r.value.rr.data.target == t + "." + origin + ".")
    ensures r.Success? && kind == KindAlias ==> r.value.rr.data.mf == e.value.s
    ensures r.Success? && kind == KindNS ==>
      || (e.Pair? && r.value.rr.data.ns == Fqdn(e.key))
      || (e.Item? && e.value.JString? && r.value.rr.data.ns == Fqdn(e.value.s))
    ensures r.Success? && kind != KindA && kind != KindAAAA && kind != KindMX ==> r.value.weight == 0
  {
    var h := RecordHeader(kind, owner, origin, ttl);
    match kind
    case KindA | KindAAAA => BuildAddress(kind, e, h, owner, isIP)
    case KindMX => BuildMx(e, h, owner)
    case KindCNAME => BuildCname(e, h, owner, origin)
    case KindAlias =>
      if e.Item? && e.value.JString? then Success(Record(RR(h, MF(e.value.s)), 0))
      else Failure(BadRecord(owner, kind.Key()))
    case KindNS => BuildNs(e, h, owner)
  }

  /** Every entry of one kind built in entry order; one bad entry rejects all. */
  function BuildAll(kind: Kind, es: seq<Entry>, owner: string, origin: string, ttl: int,
                    isIP: string -> bool): (r: Result<seq<Record>>)
    ensures r.Success? <==>
      forall i | 0 <= i < |es| :: BuildRecord(kind, es[i], owner, origin, ttl, isIP).Success?
    ensures r.Success? ==> |r.value| == |es|
    ensures r.Success? ==>
      forall i | 0 <= i < |es| :: BuildRecord(kind, es[i], owner, origin, ttl, isIP) == Success(r.value[i])
  {
    if |es| == 0 then Success([])
    else
      var first :- BuildRecord(kind, es[0], owner, origin, ttl, isIP);
      var rest :- BuildAll(kind, es[1..], owner, origin, ttl, isIP);
      Success([first] + rest)
  }
}
