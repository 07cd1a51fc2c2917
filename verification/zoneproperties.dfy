/** Properties of whole zones and labels that follow from the compilers:
    which documents are rejected and where the SOA takes its primary
    nameserver from. */
module ZoneProperties {
  import opened Results
  import opened Json
  import opened Coercion
  import opened Dns
  import opened ZoneData
  import opened Weights
  import opened Builders
  import opened LabelCompiler
  import opened Soa
  import opened ZoneCompiler

  /** A non-empty object as the value of the mx kind never compiles: its
      members become pairs, and the MX builder takes no pair. */
  lemma MxObjectKindFails(rdata: Json, owner: string, origin: string, ttl: int, isIP: string -> bool)
    requires rdata.JObject? && |rdata.members| > 0
    ensures CompileKind(KindMX, rdata, owner, origin, ttl, isIP).Failure?
  {
    var n := Normalize(rdata, owner, KindMX);
    if n.Success? {
      assert n.value[0].Pair?;
      assert !IsMxEntry(n.value[0]);
    }
    CompileKindSpec(KindMX, rdata, owner, origin, ttl, isIP);
  }

  /** An mx value written as a single non-empty object is read as key/value
      pairs, which the MX builder never accepts: the whole label fails. */
  lemma MxObjectRejected(name: string, dv: Json, opts: Options, origin: string, isIP: string -> bool)
    requires dv.JObject?
    requires Lookup(dv.members, "mx").Some? && Lookup(dv.members, "mx").value.JObject?
    requires |Lookup(dv.members, "mx").value.members| > 0
    ensures CompileLabel(name, dv, opts, origin, isIP).Failure?
  {
    var ms := dv.members;
    var ttl := LookupInt(ms, "ttl", opts.ttl);
    var maxHosts := LookupInt(ms, "max_hosts", opts.maxHosts);
    if ttl.Success? && maxHosts.Success? {
      var rdata := Lookup(ms, "mx").value;
      assert KindMX.Key() == "mx";
      MxObjectKindFails(rdata, name, origin, ttl.value, isIP);
      assert Present(ms, KindMX.Key());
      assert !CompileKind(KindMX, Lookup(ms, KindMX.Key()).value, name, origin, ttl.value, isIP).Success?;
      CompileLabelKinds(name, dv, opts, origin, isIP);
    }
  }

  /** The label object the data section holds for the root, if any. */
  predicate RootData(data: seq<(string, Json)>, dv: Json) {
    Lookup(data, "") == Some(dv) && dv.JObject?
  }

  lemma LookupKey(ms: seq<(string, Json)>, k: string)
    requires Lookup(ms, k).Some?
    ensures k in Keys(ms)
  {
    var i :| 0 <= i < |ms| && ms[i] == (k, Lookup(ms, k).value);
  }

  /** readZoneFile past the option loop: the labels are compiled, and the
      SOA step decides the outcome. */
  lemma ReadZoneUnfold(zoneName: string, doc: Json, isIP: string -> bool)
    requires TopLevel(doc).Success? && ReadOptions(TopLevel(doc).value).Success?
    ensures var st := ReadOptions(TopLevel(doc).value).value;
      var labels := CompileLabels(st.1, LabelsWith(st.0, zoneName, isIP));
      ReadZone(zoneName, doc, isIP) ==
        if labels.Failure? then Failure(labels.error) else SetupSoa(Zone(zoneName, st.0, labels.value, 0))
  {
  }

  /** The root label a zone compiles from a root object in its data. */
  lemma CompiledRoot(data: Members<Json>, dv: Json, opts: Options, origin: string,
                     isIP: string -> bool)
    requires RootData(data, dv)
    requires CompileLabels(data, LabelsWith(opts, origin, isIP)).Success?
    ensures var labels := CompileLabels(data, LabelsWith(opts, origin, isIP)).value;
      && "" in labels
      && CompileLabel("", dv, opts, origin, isIP) == Success(labels[""])
  {
    LookupKey(data, "");
  }

  /** A root object whose ns key is an empty list compiles to an empty NS
      record set, with no weight sum beside it. */
  lemma EmptyNsLabel(dv: Json, opts: Options, origin: string, isIP: string -> bool)
    requires dv.JObject? && Lookup(dv.members, "ns") == Some(JArray([]))
    requires CompileLabel("", dv, opts, origin, isIP).Success?
    ensures var root := CompileLabel("", dv, opts, origin, isIP).value;
      TypeNS in root.records && root.records[TypeNS] == [] && TypeNS !in root.weight
  {
    var root := CompileLabel("", dv, opts, origin, isIP).value;
    CompileLabelKinds("", dv, opts, origin, isIP);
    assert Present(dv.members, KindNS.Key());
    assert HoldsKind(root, KindNS, JArray([]), KindsWith("", origin, root.ttl, isIP));
    CompileKindSpec(KindNS, JArray([]), "", origin, root.ttl, isIP);
  }

  /** A list of name servers compiles to one NS record per entry, in list
      order: every entry is a name, and each record holds that name made
      absolute. */
  lemma NsListCompiled(xs: seq<Json>, owner: string, origin: string, ttl: int, isIP: string -> bool)
    requires CompileKind(KindNS, JArray(xs), owner, origin, ttl, isIP).Success?
    ensures var recs := CompileKind(KindNS, JArray(xs), owner, origin, ttl, isIP).value.0;
      && |recs| == |xs|
      && forall j | 0 <= j < |xs| :: xs[j].JString? && recs[j].rr.data == NS(Fqdn(xs[j].s))
  {
    var rdata := JArray(xs);
    CompileKindSpec(KindNS, rdata, owner, origin, ttl, isIP);
    var es := Normalize(rdata, owner, KindNS).value;
    var built := BuildAll(KindNS, es, owner, origin, ttl, isIP).value;
    forall j | 0 <= j < |built|
      ensures built[j].weight == 0
    {
      assert BuildRecord(KindNS, es[j], owner, origin, ttl, isIP) == Success(built[j]);
    }
    ZeroWeightsSum(built);
    forall j | 0 <= j < |xs|
      ensures xs[j].JString? && built[j].rr.data == NS(Fqdn(xs[j].s))
    {
      assert es[j] == Item(xs[j]);
      assert BuildRecord(KindNS, es[j], owner, origin, ttl, isIP) == Success(built[j]);
    }
  }

  /** A root object whose ns key is a list compiles to an NS record set in
      list order, each record the listed name made absolute. */
  lemma ListedNsLabel(dv: Json, xs: seq<Json>, opts: Options, origin: string, isIP: string -> bool)
    requires dv.JObject? && Lookup(dv.members, "ns") == Some(JArray(xs))
    requires CompileLabel("", dv, opts, origin, isIP).Success?
    ensures var root := CompileLabel("", dv, opts, origin, isIP).value;
      && TypeNS in root.records && |root.records[TypeNS]| == |xs|
      && forall j | 0 <= j < |xs| :: xs[j].JString? && root.records[TypeNS][j].rr.data == NS(Fqdn(xs[j].s))
  {
    var root := CompileLabel("", dv, opts, origin, isIP).value;
    CompileLabelKinds("", dv, opts, origin, isIP);
    assert Present(dv.members, KindNS.Key());
    var rdata := JArray(xs);
    assert HoldsKind(root, KindNS, rdata, KindsWith("", origin, root.ttl, isIP));
    NsListCompiled(xs, "", origin, root.ttl, isIP);
  }

  /** A root object without a usable ns key compiles to a label with no NS
      record set. */
  lemma NoNsLabel(dv: Json, opts: Options, origin: string, isIP: string -> bool)
    requires dv.JObject? && !Present(dv.members, "ns")
    requires CompileLabel("", dv, opts, origin, isIP).Success?
    ensures TypeNS !in CompileLabel("", dv, opts, origin, isIP).value.records
  {
    CompileLabelKinds("", dv, opts, origin, isIP);
    assert TypeNS == KindNS.Type();
  }

  /** A zone whose root label lists an empty set of nameservers is rejected:
      setupSOA finds no first NS record to name as primary. */
  lemma EmptyRootNsRejected(zoneName: string, doc: Json, isIP: string -> bool, dv: Json)
    requires TopLevel(doc).Success? && ReadOptions(TopLevel(doc).value).Success?
    requires RootData(ReadOptions(TopLevel(doc).value).value.1, dv)
    requires Lookup(dv.members, "ns") == Some(JArray([]))
    ensures ReadZone(zoneName, doc, isIP).Failure?
  {
    var st := ReadOptions(TopLevel(doc).value).value;
    var labels := CompileLabels(st.1, LabelsWith(st.0, zoneName, isIP));
    ReadZoneUnfold(zoneName, doc, isIP);
    if labels.Success? {
      CompiledRoot(st.1, dv, st.0, zoneName, isIP);
      EmptyNsLabel(dv, st.0, zoneName, isIP);
      assert RootLabel(Zone(zoneName, st.0, labels.value, 0)) == labels.value[""];
    }
  }

  /** A document whose options and labels compile compiles to a zone when
      its root, if any, has no usable ns key or lists at least one name
      server: setupSOA then finds its first NS record. */
  lemma UsableRootCompiles(zoneName: string, doc: Json, isIP: string -> bool)
    requires TopLevel(doc).Success? && ReadOptions(TopLevel(doc).value).Success?
    requires var st := ReadOptions(TopLevel(doc).value).value;
      CompileLabels(st.1, LabelsWith(st.0, zoneName, isIP)).Success?
    requires var data := ReadOptions(TopLevel(doc).value).value.1;
      Lookup(data, "").Some? && Lookup(data, "").value.JObject? ==>
        var ms := Lookup(data, "").value.members;
        || !Present(ms, "ns")
        || (Lookup(ms, "ns").value.JArray? && |Lookup(ms, "ns").value.items| > 0)
    ensures ReadZone(zoneName, doc, isIP).Success?
  {
    var st := ReadOptions(TopLevel(doc).value).value;
    var labels := CompileLabels(st.1, LabelsWith(st.0, zoneName, isIP)).value;
    var pre := Zone(zoneName, st.0, labels, 0);
    if "" in labels {
      var dv := Lookup(st.1, "").value;
      assert LabelsWith(st.0, zoneName, isIP)("", dv) == Success(labels[""]);
      assert CompileLabel("", dv, st.0, zoneName, isIP) == Success(labels[""]);
      if !Present(dv.members, "ns") {
        NoNsLabel(dv, st.0, zoneName, isIP);
      } else {
        ListedNsLabel(dv, Lookup(dv.members, "ns").value.items, st.0, zoneName, isIP);
      }
      assert RootLabel(pre) == labels[""];
    }
    assert SoaAccepts(pre);
  }

  /** A zone whose root has no usable ns key names the fixed primary "ns". */
  lemma PrimaryNsDefault(zoneName: string, doc: Json, isIP: string -> bool)
    requires ReadZone(zoneName, doc, isIP).Success?
    requires var data := ReadOptions(TopLevel(doc).value).value.1;
      Lookup(data, "").Some? ==> !Present(Lookup(data, "").value.members, "ns")
    ensures PrimaryOf(ReadZone(zoneName, doc, isIP).value) == DefaultPrimaryNs
  {
    var st := ReadOptions(TopLevel(doc).value).value;
    var labels := CompileLabels(st.1, LabelsWith(st.0, zoneName, isIP)).value;
    var pre := Zone(zoneName, st.0, labels, 0);
    ReadZoneUnfold(zoneName, doc, isIP);
    if "" in labels {
      var dv := Lookup(st.1, "").value;
      assert Lookup(st.1, "").Some?;
      assert labels[""] == LabelsWith(st.0, zoneName, isIP)("", dv).value;
      NoNsLabel(dv, st.0, zoneName, isIP);
    }
    assert TypeNS !in RootLabel(pre).records;
  }

  /** Name servers all weigh nothing, so the NS record set keeps the order
      of the list, and the SOA names the first listed server as primary. */
  lemma PrimaryNsIsFirstListed(zoneName: string, doc: Json, isIP: string -> bool,
                               dv: Json, xs: seq<Json>)
    requires ReadZone(zoneName, doc, isIP).Success?
    requires RootData(ReadOptions(TopLevel(doc).value).value.1, dv)
    requires Lookup(dv.members, "ns") == Some(JArray(xs)) && |xs| > 0 && xs[0].JString?
    ensures PrimaryOf(ReadZone(zoneName, doc, isIP).value) == Fqdn(xs[0].s)
  {
    var st := ReadOptions(TopLevel(doc).value).value;
    var labels := CompileLabels(st.1, LabelsWith(st.0, zoneName, isIP)).value;
    var pre := Zone(zoneName, st.0, labels, 0);
    ReadZoneUnfold(zoneName, doc, isIP);
    CompiledRoot(st.1, dv, st.0, zoneName, isIP);
    ListedNsLabel(dv, xs, st.0, zoneName, isIP);
    assert RootLabel(pre) == labels[""];
  }

  /** The raw value of the weight ordering example: three A entries of
      weights 5, 0 and 10, in that order. */
  function ExampleRdata(a: string, b: string, c: string): Json {
    JArray([JArray([JString(a), JNumber(5.0)]),
            JArray([JString(b), JNumber(0.0)]),
            JArray([JString(c), JNumber(10.0)])])
  }

  /** Built in entry order, the example's records carry weights 5, 0, 10. */
  lemma ExampleBuilt(owner: string, origin: string, ttl: int, isIP: string -> bool,
                     a: string, b: string, c: string)
    requires isIP(a) && isIP(b) && isIP(c)
    ensures var es := Normalize(ExampleRdata(a, b, c), owner, KindA);
      && es.Success?
      && var built := BuildAll(KindA, es.value, owner, origin, ttl, isIP);
      && built.Success? && |built.value| == 3
      && built.value[0].rr.data == A(a) && built.value[0].weight == 5
      && built.value[1].rr.data == A(b) && built.value[1].weight == 0
      && built.value[2].rr.data == A(c) && built.value[2].weight == 10
  {
    var es := Normalize(ExampleRdata(a, b, c), owner, KindA).value;
    assert Trunc(5.0) == 5 && Trunc(0.0) == 0 && Trunc(10.0) == 10;
    forall i | 0 <= i < 3
      ensures BuildRecord(KindA, es[i], owner, origin, ttl, isIP).Success?
    {
      assert IsAddressEntry(es[i], isIP);
    }
    var built := BuildAll(KindA, es, owner, origin, ttl, isIP).value;
    assert BuildRecord(KindA, es[0], owner, origin, ttl, isIP) == Success(built[0]);
    assert BuildRecord(KindA, es[1], owner, origin, ttl, isIP) == Success(built[1]);
    assert BuildRecord(KindA, es[2], owner, origin, ttl, isIP) == Success(built[2]);
  }

  /** Three A entries of weights 5, 0 and 10, in that order, come out
      heaviest first: 10, 5, 0. */
  lemma WeightOrderExample(owner: string, origin: string, ttl: int, isIP: string -> bool,
                           a: string, b: string, c: string)
    requires isIP(a) && isIP(b) && isIP(c)
    ensures var r := CompileKind(KindA, ExampleRdata(a, b, c), owner, origin, ttl, isIP);
      && r.Success? && |r.value.0| == 3 && r.value.1 == 15
      && r.value.0[0].rr.data == A(c) && r.value.0[0].weight == 10
      && r.value.0[1].rr.data == A(a) && r.value.0[1].weight == 5
      && r.value.0[2].rr.data == A(b) && r.value.0[2].weight == 0
  {
    var rdata := ExampleRdata(a, b, c);
    ExampleBuilt(owner, origin, ttl, isIP, a, b, c);
    var es := Normalize(rdata, owner, KindA).value;
    var built := BuildAll(KindA, es, owner, origin, ttl, isIP).value;
    var x, y, z := built[0], built[1], built[2];
    assert built == [x, y, z];
    assert [x, y, z][1..] == [y, z] && [y, z][1..] == [z] && [z][1..] == [];
    assert SumWeights([z]) == 10;
    assert SumWeights([y, z]) == 10;
    assert SumWeights(built) == 15;
    CompileKindSpec(KindA, rdata, owner, origin, ttl, isIP);
    SortedExample(CompileKind(KindA, rdata, owner, origin, ttl, isIP).value.0, x, y, z);
  }

  /** The only weight-ordered arrangement of three records of weights 5, 0
      and 10. */
  lemma SortedExample(r: seq<Record>, x: Record, y: Record, z: Record)
    requires x.weight == 5 && y.weight == 0 && z.weight == 10
    requires ByWeight(r) && multiset(r) == multiset([x, y, z])
    ensures r == [z, x, y]
  {
    var s := [z, x, y];
    assert multiset(s) == multiset([x, y, z]);
    ByWeightWeightsUnique(r, s);
    assert |r| == 3;
    forall i | 0 <= i < 3
      ensures r[i] == s[i]
    {
      assert r[i] in multiset([x, y, z]);
    }
  }
}
