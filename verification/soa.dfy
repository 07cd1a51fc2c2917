/** setupSOA: the synthesised start-of-authority record of a zone's root. */
module Soa {
  import opened Results
  import opened Dns
  import opened ZoneData

  /** The fixed SOA values of setupSOA, in the order of the fields of
      section 3.3.13 of RFC 1035. */
  const SoaTtl: nat := 3600
  const SoaRefresh: nat := 5400
  const SoaRetry: nat := 5400
  const SoaExpire: nat := 2419200

  /** The primary nameserver named when the root has no NS key. */
  const DefaultPrimaryNs := "ns"

  /** The root label, or the empty one AddLabel creates when it is missing. */
  function RootLabel(z: Zone): Label {
    if "" in z.labels then z.labels[""] else NewLabel("", z.options)
  }

  /** A zone whose root holds exactly one SOA record built from its options:
      TTL 3600, owner `origin.`, the fixed timers, contact and serial from
      the options, and the zone ttl as minimum. */
  predicate HasSoa(z: Zone) {
    && "" in z.labels
    && TypeSOA in z.labels[""].records
    && |z.labels[""].records[TypeSOA]| == 1
    && var soa := z.labels[""].records[TypeSOA][0];
       && soa.rr.hdr == Header(z.origin + ".", TypeSOA.Code(), ClassINET, SoaTtl)
       && soa.rr.data.SOA?
       && soa.rr.data.mbox == z.options.contact
       && soa.rr.data.serial == z.options.serial
       && soa.rr.data.refresh == SoaRefresh
       && soa.rr.data.retry == SoaRetry
       && soa.rr.data.expire == SoaExpire
       && soa.rr.data.minttl == z.options.ttl
  }

  /** The primary nameserver named by a zone's SOA record. */
  function PrimaryOf(z: Zone): string
    requires HasSoa(z)
  {
    z.labels[""].records[TypeSOA][0].rr.data.primary
  }

  /** setupSOA goes through exactly when the root has no NS key, or its NS
      record set starts with an NS record (`record[0]` exists). */
  predicate SoaAccepts(z: Zone) {
    var root := RootLabel(z);
    TypeNS in root.records ==> |root.records[TypeNS]| > 0 && root.records[TypeNS][0].rr.data.NS?
  }

  function SoaRecord(origin: string, primary: string, opts: Options): Record {
    Record(RR(Header(origin + ".", TypeSOA.Code(), ClassINET, SoaTtl),
              SOA(primary, opts.contact, opts.serial, SoaRefresh, SoaRetry, SoaExpire, opts.ttl)),
           0)
  }

  /** Add the SOA to the root label (creating the root when missing). The
      primary nameserver is the first NS record of the root; a root whose NS
      record set is empty rejects the zone. */
  function SetupSoa(z: Zone): (r: Result<Zone>)
    ensures r.Success? <==> SoaAccepts(z)
    ensures r.Success? ==> HasSoa(r.value)
    ensures r.Success? ==>
      r.value.origin == z.origin && r.value.options == z.options && r.value.lastRead == z.lastRead
    ensures r.Success? ==> r.value.labels.Keys == z.labels.Keys + {""}
    ensures r.Success? ==> forall n | n in z.labels && n != "" :: r.value.labels[n] == z.labels[n]
    ensures r.Success? ==>
      var root := RootLabel(z);
      r.value.labels[""] == root.(records := root.records[TypeSOA := r.value.labels[""].records[TypeSOA]])
    ensures r.Success? ==>
      var root := RootLabel(z);
      && (TypeNS !in root.records ==> PrimaryOf(r.value) == DefaultPrimaryNs)
      && (TypeNS in root.records ==>
            |root.records[TypeNS]| > 0 && root.records[TypeNS][0].rr.data.NS? &&
            PrimaryOf(r.value) == root.records[TypeNS][0].rr.data.ns)
    ensures TypeNS in RootLabel(z).records && |RootLabel(z).records[TypeNS]| == 0 ==> r.Failure?
  {
    var root := RootLabel(z);
    var primary :-
      if TypeNS in root.records then
        var nss := root.records[TypeNS];
        if |nss| > 0 && nss[0].rr.data.NS? then Success(nss[0].rr.data.ns)
        else Failure(BadDocument("root NS record set has no first NS record"))
      else Success(DefaultPrimaryNs);
    var root' := root.(records := root.records[TypeSOA := [SoaRecord(z.origin, primary, z.options)]]);
    Success(z.(labels := z.labels["" := root']))
  }
}
