/** readZoneFile and setupZoneData without the file and JSON I/O: from a
    decoded document to a compiled zone. */
module ZoneCompiler {
  import opened Results
  import opened Json
  import opened Coercion
  import opened Dns
  import opened ZoneData
  import opened Builders
  import opened LabelCompiler
  import opened Soa

  /** Decoding into a map[string]interface{}: an object gives its members,
      null leaves the map nil (no error), anything else is a decode error. */
  function TopLevel(doc: Json): (r: Result<Members<Json>>)
    ensures doc.JObject? ==> r == Success(doc.members)
    ensures doc.JNull? ==> r == Success([])
    ensures !doc.JObject? && !doc.JNull? ==> r.Failure?
  {
    match doc
    case JObject(ms) => Success(ms)
    case JNull => Success([])
    case _ => Failure(BadDocument("document is not an object"))
  }

  /** A top-level member the option loop accepts: numeric options must
      coerce, contact must be a string, data must be an object; other keys
      are ignored. */
  predicate OptionMemberOk(m: (string, Json)) {
    if m.0 == "ttl" || m.0 == "serial" || m.0 == "max_hosts" then ValueToInt(m.1).Success?
    else if m.0 == "contact" then m.1.JString?
    else if m.0 == "data" then m.1.JObject?
    else true
  }

  /** One iteration of the option loop over the top-level members. */
  function ApplyOption(st: (Options, Members<Json>), m: (string, Json))
    : (r: Result<(Options, Members<Json>)>)
    ensures r.Success? <==> OptionMemberOk(m)
    ensures r.Success? ==>
      && r.value.0.ttl == (if m.0 == "ttl" then ValueToInt(m.1).value else st.0.ttl)
      && r.value.0.serial == (if m.0 == "serial" then ValueToInt(m.1).value else st.0.serial)
      && r.value.0.maxHosts == (if m.0 == "max_hosts" then ValueToInt(m.1).value else st.0.maxHosts)
      && r.value.0.contact == (if m.0 == "contact" then m.1.s else st.0.contact)
      && r.value.1 == (if m.0 == "data" then m.1.members else st.1)
  {
    var (o, data) := st;
    var (k, v) := m;
    if k == "ttl" then
      var n :- ValueToInt(v);
      Success((o.(ttl := n), data))
    else if k == "serial" then
      var n :- ValueToInt(v);
      Success((o.(serial := n), data))
    else if k == "max_hosts" then
      var n :- ValueToInt(v);
      Success((o.(maxHosts := n), data))
    else if k == "contact" then
      if v.JString? then Success((o.(contact := v.s), data))
      else Failure(BadDocument("contact is not a string"))
    else if k == "data" then
      if v.JObject? then Success((o, v.members))
      else Failure(BadDocument("data is not an object"))
    else Success(st)
  }

  /** The option loop of readZoneFile, members in iteration order, starting
      from the defaults. It yields the zone options and the data object's
      members (none when there is no data key). */
  function ReadOptions(ms: Members<Json>): (r: Result<(Options, Members<Json>)>)
    ensures r.Success? <==> forall i | 0 <= i < |ms| :: OptionMemberOk(ms[i])
  {
    if |ms| == 0 then Success((DefaultOptions, []))
    else
      var st :- ReadOptions(ms[..|ms| - 1]);
      ApplyOption(st, ms[|ms| - 1])
  }

  /** The numeric options end as their key's value sets them, or at their
      defaults. */
  lemma {:induction false} ReadOptionsNumbers(ms: Members<Json>)
    requires ReadOptions(ms).Success?
    ensures var o := ReadOptions(ms).value.0;
      && LookupInt(ms, "ttl", DefaultOptions.ttl) == Success(o.ttl)
      && LookupInt(ms, "serial", DefaultOptions.serial) == Success(o.serial)
      && LookupInt(ms, "max_hosts", DefaultOptions.maxHosts) == Success(o.maxHosts)
  {
    if |ms| > 0 {
      ReadOptionsNumbers(ms[..|ms| - 1]);
    }
  }

  /** The contact is the contact string given, or the default; the data
      members are those of the data object, or none. */
  lemma {:induction false} ReadOptionsContactData(ms: Members<Json>)
    requires ReadOptions(ms).Success?
    ensures var r := ReadOptions(ms).value;
      && (Lookup(ms, "contact").None? ==> r.0.contact == DefaultOptions.contact)
      && (Lookup(ms, "contact").Some? ==> Lookup(ms, "contact").value == JString(r.0.contact))
      && (Lookup(ms, "data").None? ==> r.1 == [])
      && (Lookup(ms, "data").Some? ==>
            Lookup(ms, "data").value.JObject? && Lookup(ms, "data").value.members == r.1)
  {
    if |ms| > 0 {
      ReadOptionsContactData(ms[..|ms| - 1]);
    }
  }

  /** The compiler every label of one zone goes through. */
  function LabelsWith(opts: Options, origin: string, isIP: string -> bool)
    : (string, Json) -> Result<Label>
  {
    (name: string, dv: Json) => CompileLabel(name, dv, opts, origin, isIP)
  }

  /** The keys of a member sequence are those of all but its last member,
      plus the last member's. */
  lemma KeysSnoc(data: seq<(string, Json)>)
    requires |data| > 0
    ensures Keys(data) == Keys(data[..|data| - 1]) + {data[|data| - 1].0}
    ensures forall i | 0 <= i < |data| - 1 :: data[..|data| - 1][i] == data[i]
  {
    var prefix := data[..|data| - 1];
    forall n | n in Keys(data) ensures n in Keys(prefix) + {data[|data| - 1].0} {
      var i :| 0 <= i < |data| && data[i].0 == n;
      if i < |data| - 1 {
        assert prefix[i] == data[i];
      }
    }
  }

  /** The label loop of setupZoneData over the data members, each compiled
      by compile; any failure rejects the zone. */
  function CompileLabels(data: Members<Json>, compile: (string, Json) -> Result<Label>)
    : (r: Result<map<string, Label>>)
    ensures r.Success? <==> forall i | 0 <= i < |data| :: compile(data[i].0, data[i].1).Success?
    ensures r.Success? ==> r.value.Keys == Keys(data)
    ensures r.Success? ==>
      forall n | n in r.value ::
        Lookup(data, n).Some? && compile(n, Lookup(data, n).value) == Success(r.value[n])
  {
    if |data| == 0 then Success(map[])
    else
      var prefix := data[..|data| - 1];
      var name := data[|data| - 1].0;
      KeysSnoc(data);
      var labels :- CompileLabels(prefix, compile);
      var l :- compile(name, data[|data| - 1].1);
      Success(labels[name := l])
  }

  /** readZoneFile from the decoded document on: defaults, top-level
      options, every label of data, then the SOA. */
  function ReadZone(zoneName: string, doc: Json, isIP: string -> bool): (r: Result<Zone>)
    ensures r.Success? <==>
      && TopLevel(doc).Success?
      && ReadOptions(TopLevel(doc).value).Success?
      && var st := ReadOptions(TopLevel(doc).value).value;
         && CompileLabels(st.1, LabelsWith(st.0, zoneName, isIP)).Success?
         && SoaAccepts(Zone(zoneName, st.0, CompileLabels(st.1, LabelsWith(st.0, zoneName, isIP)).value, 0))
    ensures r.Success? ==> r.value.origin == zoneName && r.value.lastRead == 0
    ensures r.Success? ==> HasSoa(r.value)
    ensures r.Success? ==>
      && TopLevel(doc).Success?
      && ReadOptions(TopLevel(doc).value).Success?
      && var opts := ReadOptions(TopLevel(doc).value).value.0;
         var data := ReadOptions(TopLevel(doc).value).value.1;
         && r.value.options == opts
         && CompileLabels(data, LabelsWith(opts, zoneName, isIP)).Success?
         && r.value.labels.Keys == Keys(data) + {""}
         && forall n | n in r.value.labels && n != "" ::
              r.value.labels[n] == CompileLabels(data, LabelsWith(opts, zoneName, isIP)).value[n]
    ensures r.Success? ==>
      && TopLevel(doc).Success?
      && ReadOptions(TopLevel(doc).value).Success?
      && var opts := ReadOptions(TopLevel(doc).value).value.0;
         var data := ReadOptions(TopLevel(doc).value).value.1;
         && CompileLabels(data, LabelsWith(opts, zoneName, isIP)).Success?
         && var root := RootLabel(Zone(zoneName, opts, CompileLabels(data, LabelsWith(opts, zoneName, isIP)).value, 0));
            && "" in r.value.labels
            && r.value.labels[""] == root.(records := root.records[TypeSOA := r.value.labels[""].records[TypeSOA]])
    ensures r.Success? ==>
      var root := r.value.labels[""];
      && (TypeNS !in root.records ==> PrimaryOf(r.value) == DefaultPrimaryNs)
      && (TypeNS in root.records ==>
            |root.records[TypeNS]| > 0 && root.records[TypeNS][0].rr.data.NS? &&
            PrimaryOf(r.value) == root.records[TypeNS][0].rr.data.ns)
  {
    var top :- TopLevel(doc);
    var st :- ReadOptions(top);
    var labels :- CompileLabels(st.1, LabelsWith(st.0, zoneName, isIP));
    SetupSoa(Zone(zoneName, st.0, labels, 0))
  }
}
