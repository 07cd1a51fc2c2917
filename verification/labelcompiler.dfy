/** The label compiler of setupZoneData: label options, and for every record
    kind present the normalised, built, summed and ordered record set. */
module LabelCompiler {
  import opened Results
  import opened Json
  import opened Coercion
  import opened Dns
  import opened ZoneData
  import opened Weights
  import opened Builders

  /** The header and weight facts every record a builder makes satisfies. */
  predicate WellBuilt(rec: Record, kind: Kind, owner: string, origin: string, ttl: int) {
    && rec.rr.hdr.name == owner + "." + origin + "."
    && rec.rr.hdr.rrclass == ClassINET
    && rec.rr.hdr.rrtype == kind.Type().Code()
    && DataType(rec.rr.data) == kind.Type()
    && rec.rr.hdr.ttl == (if kind == KindNS && Uint32(ttl) < NsTtlFloor then NsTtlFloor else Uint32(ttl))
    && (kind != KindA && kind != KindAAAA && kind != KindMX ==> rec.weight == 0)
  }

  /** One kind of one label: normalise the raw value, build one record per
      entry, sum the weights, and order heaviest first only when the sum is
      positive. The result is the record set and its weight sum; its
      properties are stated by CompileKindSpec. */
  function CompileKind(kind: Kind, rdata: Json, owner: string, origin: string, ttl: int,
                       isIP: string -> bool): Result<(seq<Record>, int)>
  {
    var es :- Normalize(rdata, owner, kind);
    var built :- BuildAll(kind, es, owner, origin, ttl, isIP);
    var sum := SumWeights(built);
    Success((if sum > 0 then SortByWeight(built) else built, sum))
  }

  /** A kind compiles exactly when its value normalises and every entry
      builds; then it holds one record per entry, its weight is the sum of
      the record weights, and the records are the built ones in entry order
      when that sum is not positive, or a heaviest-first permutation of them
      when it is. */
  lemma CompileKindSpec(kind: Kind, rdata: Json, owner: string, origin: string, ttl: int,
                        isIP: string -> bool)
    ensures var r := CompileKind(kind, rdata, owner, origin, ttl, isIP);
      r.Success? <==>
      && Normalize(rdata, owner, kind).Success?
      && BuildAll(kind, Normalize(rdata, owner, kind).value, owner, origin, ttl, isIP).Success?
    ensures var r := CompileKind(kind, rdata, owner, origin, ttl, isIP);
      r.Success? ==>
      && Normalize(rdata, owner, kind).Success?
      && var es := Normalize(rdata, owner, kind).value;
         && BuildAll(kind, es, owner, origin, ttl, isIP).Success?
         && var built := BuildAll(kind, es, owner, origin, ttl, isIP).value;
            && |r.value.0| == |es|
            && multiset(r.value.0) == multiset(built)
            && r.value.1 == SumWeights(r.value.0) == SumWeights(built)
            && (r.value.1 > 0 ==> ByWeight(r.value.0))
            && (r.value.1 <= 0 ==> r.value.0 == built)
    ensures var r := CompileKind(kind, rdata, owner, origin, ttl, isIP);
      r.Success? ==>
      forall j | 0 <= j < |r.value.0| :: WellBuilt(r.value.0[j], kind, owner, origin, ttl)
  {
    var r := CompileKind(kind, rdata, owner, origin, ttl, isIP);
    if r.Success? {
      var es := Normalize(rdata, owner, kind).value;
      var built := BuildAll(kind, es, owner, origin, ttl, isIP).value;
      BuiltAreWellBuilt(kind, es, owner, origin, ttl, isIP);
      PermutedWellBuilt(r.value.0, built, kind, owner, origin, ttl);
    }
  }

  /** Every record a kind builds is well built. */
  lemma BuiltAreWellBuilt(kind: Kind, es: seq<Entry>, owner: string, origin: string, ttl: int,
                          isIP: string -> bool)
    requires BuildAll(kind, es, owner, origin, ttl, isIP).Success?
    ensures var built := BuildAll(kind, es, owner, origin, ttl, isIP).value;
      forall i | 0 <= i < |built| :: WellBuilt(built[i], kind, owner, origin, ttl)
  {
    var built := BuildAll(kind, es, owner, origin, ttl, isIP).value;
    forall i | 0 <= i < |built|
      ensures WellBuilt(built[i], kind, owner, origin, ttl)
    {
      assert BuildRecord(kind, es[i], owner, origin, ttl, isIP) == Success(built[i]);
    }
  }

  /** Reordering well-built records leaves them well built. */
  lemma PermutedWellBuilt(recs: seq<Record>, built: seq<Record>, kind: Kind, owner: string,
                          origin: string, ttl: int)
    requires multiset(recs) == multiset(built)
    requires forall i | 0 <= i < |built| :: WellBuilt(built[i], kind, owner, origin, ttl)
    ensures forall j | 0 <= j < |recs| :: WellBuilt(recs[j], kind, owner, origin, ttl)
  {
    forall j | 0 <= j < |recs|
      ensures WellBuilt(recs[j], kind, owner, origin, ttl)
    {
      assert recs[j] in multiset(built);
      var i :| 0 <= i < |built| && built[i] == recs[j];
    }
  }

  /** The compiler every kind of one label goes through: the label's name
      and ttl are fixed for the whole kind loop. */
  function KindsWith(owner: string, origin: string, ttl: int, isIP: string -> bool)
    : (Kind, Json) -> Result<(seq<Record>, int)>
  {
    (k: Kind, rdata: Json) => CompileKind(k, rdata, owner, origin, ttl, isIP)
  }

  /** A label holds kind k exactly as compile makes it from rdata: the
      record set always, the weight sum only when some record was built
      (`label.Weight[t] +=` runs once per record). */
  predicate HoldsKind(l: Label, k: Kind, rdata: Json, compile: (Kind, Json) -> Result<(seq<Record>, int)>) {
    var c := compile(k, rdata);
    && c.Success?
    && k.Type() in l.records && l.records[k.Type()] == c.value.0
    && (k.Type() in l.weight <==> |c.value.0| > 0)
    && (k.Type() in l.weight ==> l.weight[k.Type()] == c.value.1)
  }

  /** The kinds of a sequence whose key is present (not nil) in a label object. */
  function PresentTypes(ks: seq<Kind>, ms: seq<(string, Json)>): set<RRType> {
    set i | 0 <= i < |ks| && Present(ms, ks[i].Key()) :: ks[i].Type()
  }

  /** The kinds of a sequence that are present and compile to at least one
      record: those that get a weight sum. */
  function FilledTypes(ks: seq<Kind>, ms: seq<(string, Json)>,
                       compile: (Kind, Json) -> Result<(seq<Record>, int)>): set<RRType> {
    set i | 0 <= i < |ks| && Filled(ks[i], ms, compile) :: ks[i].Type()
  }

  /** Kind k is present and compiles to at least one record. */
  predicate Filled(k: Kind, ms: seq<(string, Json)>, compile: (Kind, Json) -> Result<(seq<Record>, int)>) {
    && Present(ms, k.Key())
    && compile(k, Lookup(ms, k.Key()).value).Success?
    && |compile(k, Lookup(ms, k.Key()).value).value.0| > 0
  }

  predicate DistinctTypes(ks: seq<Kind>) {
    forall i, j | 0 <= i < j < |ks| :: ks[i].Type() != ks[j].Type()
  }

  /** The loop over record kinds: a kind whose value is absent or null is
      skipped, any other is compiled into the label (CompileKindsOk,
      CompileKindsKeys, CompileKindsFrame and CompileKindsHolds). */
  function CompileKinds(ks: seq<Kind>, ms: seq<(string, Json)>, l: Label,
                        compile: (Kind, Json) -> Result<(seq<Record>, int)>): (r: Result<Label>)
    ensures r.Success? ==>
      r.value.name == l.name && r.value.ttl == l.ttl && r.value.maxHosts == l.maxHosts
    decreases |ks|
  {
    if |ks| == 0 then Success(l)
    else
      var k := ks[0];
      var l' :- KindStep(k, ms, l, compile);
      CompileKinds(ks[1..], ms, l', compile)
  }

  /** One iteration of the kind loop. */
  function KindStep(k: Kind, ms: seq<(string, Json)>, l: Label,
                    compile: (Kind, Json) -> Result<(seq<Record>, int)>): (r: Result<Label>)
    ensures r.Success? ==>
      r.value.name == l.name && r.value.ttl == l.ttl && r.value.maxHosts == l.maxHosts
  {
    if Present(ms, k.Key()) then
      var c :- compile(k, Lookup(ms, k.Key()).value);
      var weight := if |c.0| > 0 then l.weight[k.Type() := c.1] else l.weight;
      Success(l.(records := l.records[k.Type() := c.0], weight := weight))
    else Success(l)
  }

  lemma PresentTypesCons(ks: seq<Kind>, ms: seq<(string, Json)>)
    requires |ks| > 0
    ensures PresentTypes(ks, ms) ==
      PresentTypes(ks[1..], ms) + (if Present(ms, ks[0].Key()) then {ks[0].Type()} else {})
  {
    var rest := ks[1..];
    forall t | t in PresentTypes(ks, ms)
      ensures t in PresentTypes(rest, ms) + (if Present(ms, ks[0].Key()) then {ks[0].Type()} else {})
    {
      var i :| 0 <= i < |ks| && Present(ms, ks[i].Key()) && ks[i].Type() == t;
      if i > 0 {
        assert rest[i - 1] == ks[i];
      }
    }
    forall t | t in PresentTypes(rest, ms)
      ensures t in PresentTypes(ks, ms)
    {
      var i :| 0 <= i < |rest| && Present(ms, rest[i].Key()) && rest[i].Type() == t;
      assert ks[i + 1] == rest[i];
    }
  }

  /** The kind loop compiles exactly when every present kind does. */
  lemma FilledTypesCons(ks: seq<Kind>, ms: seq<(string, Json)>,
                        compile: (Kind, Json) -> Result<(seq<Record>, int)>)
    requires |ks| > 0
    ensures FilledTypes(ks, ms, compile) ==
      FilledTypes(ks[1..], ms, compile) + (if Filled(ks[0], ms, compile) then {ks[0].Type()} else {})
  {
    var rest := ks[1..];
    forall t | t in FilledTypes(ks, ms, compile)
      ensures t in FilledTypes(rest, ms, compile) + (if Filled(ks[0], ms, compile) then {ks[0].Type()} else {})
    {
      var i :| 0 <= i < |ks| && Filled(ks[i], ms, compile) && ks[i].Type() == t;
      if i > 0 {
        assert rest[i - 1] == ks[i];
      }
    }
    forall t | t in FilledTypes(rest, ms, compile)
      ensures t in FilledTypes(ks, ms, compile)
    {
      var i :| 0 <= i < |rest| && Filled(rest[i], ms, compile) && rest[i].Type() == t;
      assert ks[i + 1] == rest[i];
    }
  }

  lemma {:induction false} CompileKindsOk(ks: seq<Kind>, ms: seq<(string, Json)>, l: Label,
                                          compile: (Kind, Json) -> Result<(seq<Record>, int)>)
    ensures CompileKinds(ks, ms, l, compile).Success? <==>
      forall i | 0 <= i < |ks| && Present(ms, ks[i].Key()) ::
        compile(ks[i], Lookup(ms, ks[i].Key()).value).Success?
    decreases |ks|
  {
    if |ks| > 0 {
      var rest := ks[1..];
      assert forall i | 0 <= i < |rest| :: rest[i] == ks[i + 1];
      var step := KindStep(ks[0], ms, l, compile);
      if step.Success? {
        CompileKindsOk(rest, ms, step.value, compile);
      }
    }
  }

  lemma UnionShift(k: set<RRType>, a: set<RRType>, added: set<RRType>, rest: set<RRType>, all: set<RRType>)
    requires k == (a + added) + rest && all == added + rest
    ensures k == a + all
  {
  }

  /** One kind step adds the kind's type to the record keys exactly when its
      key is present, and to the weight keys exactly when it is also filled. */
  lemma KindStepKeys(k: Kind, ms: seq<(string, Json)>, l: Label,
                     compile: (Kind, Json) -> Result<(seq<Record>, int)>)
    requires KindStep(k, ms, l, compile).Success?
    ensures var l' := KindStep(k, ms, l, compile).value;
      && l'.records.Keys == l.records.Keys + (if Present(ms, k.Key()) then {k.Type()} else {})
      && l'.weight.Keys == l.weight.Keys + (if Filled(k, ms, compile) then {k.Type()} else {})
  {
  }

  /** The kind loop adds a record set for exactly the present kinds. */
  lemma {:induction false} CompileKindsRecordKeys(ks: seq<Kind>, ms: seq<(string, Json)>, l: Label,
                                                  compile: (Kind, Json) -> Result<(seq<Record>, int)>)
    ensures var r := CompileKinds(ks, ms, l, compile);
      r.Success? ==> r.value.records.Keys == l.records.Keys + PresentTypes(ks, ms)
    decreases |ks|
  {
    if |ks| > 0 {
      var step := KindStep(ks[0], ms, l, compile);
      if step.Success? {
        var r := CompileKinds(ks[1..], ms, step.value, compile);
        assert CompileKinds(ks, ms, l, compile) == r;
        if r.Success? {
          CompileKindsRecordKeys(ks[1..], ms, step.value, compile);
          KindStepKeys(ks[0], ms, l, compile);
          PresentTypesCons(ks, ms);
          var added := if Present(ms, ks[0].Key()) then {ks[0].Type()} else {};
          UnionShift(r.value.records.Keys, l.records.Keys, added, PresentTypes(ks[1..], ms), PresentTypes(ks, ms));
        }
      }
    }
  }

  /** The kind loop adds a weight sum for exactly the present kinds that
      compile to at least one record. */
  lemma {:induction false} CompileKindsWeightKeys(ks: seq<Kind>, ms: seq<(string, Json)>, l: Label,
                                                  compile: (Kind, Json) -> Result<(seq<Record>, int)>)
    ensures var r := CompileKinds(ks, ms, l, compile);
      r.Success? ==> r.value.weight.Keys == l.weight.Keys + FilledTypes(ks, ms, compile)
    decreases |ks|
  {
    if |ks| > 0 {
      var step := KindStep(ks[0], ms, l, compile);
      if step.Success? {
        var r := CompileKinds(ks[1..], ms, step.value, compile);
        assert CompileKinds(ks, ms, l, compile) == r;
        if r.Success? {
          CompileKindsWeightKeys(ks[1..], ms, step.value, compile);
          KindStepKeys(ks[0], ms, l, compile);
          FilledTypesCons(ks, ms, compile);
          var added := if Filled(ks[0], ms, compile) then {ks[0].Type()} else {};
          UnionShift(r.value.weight.Keys, l.weight.Keys, added, FilledTypes(ks[1..], ms, compile),
                     FilledTypes(ks, ms, compile));
        }
      }
    }
  }

  /** The kind loop adds a record set for exactly the present kinds, and a
      weight sum for exactly those of them that compile to some record. */
  lemma CompileKindsKeys(ks: seq<Kind>, ms: seq<(string, Json)>, l: Label,
                         compile: (Kind, Json) -> Result<(seq<Record>, int)>)
    ensures var r := CompileKinds(ks, ms, l, compile);
      r.Success? ==>
      && r.value.records.Keys == l.records.Keys + PresentTypes(ks, ms)
      && r.value.weight.Keys == l.weight.Keys + FilledTypes(ks, ms, compile)
  {
    CompileKindsRecordKeys(ks, ms, l, compile);
    CompileKindsWeightKeys(ks, ms, l, compile);
  }

  /** The kind loop leaves the record set and weight of every type no
      present kind maps to as they were, and adds no weight for them. */
  lemma {:induction false} CompileKindsFrame(ks: seq<Kind>, ms: seq<(string, Json)>, l: Label,
                                             compile: (Kind, Json) -> Result<(seq<Record>, int)>)
    ensures var r := CompileKinds(ks, ms, l, compile);
      r.Success? ==>
      && (forall t | t in l.records && t !in PresentTypes(ks, ms) :: t in r.value.records && r.value.records[t] == l.records[t])
      && (forall t | t in l.weight && t !in PresentTypes(ks, ms) :: t in r.value.weight && r.value.weight[t] == l.weight[t])
      && (forall t | t !in l.weight && t !in PresentTypes(ks, ms) :: t !in r.value.weight)
    decreases |ks|
  {
    if |ks| > 0 {
      PresentTypesCons(ks, ms);
      var step := KindStep(ks[0], ms, l, compile);
      if step.Success? {
        assert CompileKinds(ks, ms, l, compile) == CompileKinds(ks[1..], ms, step.value, compile);
        CompileKindsFrame(ks[1..], ms, step.value, compile);
      }
    }
  }

  /** After the kind loop over distinct kinds, starting from a label with no
      weight for them, every present kind is held as compile makes it. */
  lemma {:induction false} CompileKindsHolds(ks: seq<Kind>, ms: seq<(string, Json)>, l: Label,
                                             compile: (Kind, Json) -> Result<(seq<Record>, int)>)
    requires DistinctTypes(ks)
    requires forall i | 0 <= i < |ks| :: ks[i].Type() !in l.weight
    ensures var r := CompileKinds(ks, ms, l, compile);
      r.Success? ==>
      forall i | 0 <= i < |ks| && Present(ms, ks[i].Key()) ::
        HoldsKind(r.value, ks[i], Lookup(ms, ks[i].Key()).value, compile)
    decreases |ks|
  {
    if |ks| > 0 {
      var k := ks[0];
      var rest := ks[1..];
      var step := KindStep(k, ms, l, compile);
      if step.Success? {
        var l' := step.value;
        PresentTypesCons(ks, ms);
        assert k.Type() !in PresentTypes(rest, ms);
        assert forall i | 0 <= i < |rest| :: rest[i] == ks[i + 1];
        assert forall i | 0 <= i < |rest| :: rest[i].Type() !in l'.weight;
        CompileKindsHolds(rest, ms, l', compile);
        CompileKindsFrame(rest, ms, l', compile);
        var r := CompileKinds(ks, ms, l, compile);
        assert r == CompileKinds(rest, ms, l', compile);
        if r.Success? {
          forall i | 0 <= i < |ks| && Present(ms, ks[i].Key())
            ensures HoldsKind(r.value, ks[i], Lookup(ms, ks[i].Key()).value, compile)
          {
            if i > 0 {
              assert rest[i - 1] == ks[i];
            } else {
              assert HoldsKind(l', k, Lookup(ms, k.Key()).value, compile);
            }
          }
        }
      }
    }
  }

  /** `if v, ok := dv[key]; ok`: a present key (null included) goes through
      valueToInt, an absent one keeps the default. */
  function LookupInt(ms: seq<(string, Json)>, key: string, default: int): (r: Result<int>)
    ensures Lookup(ms, key).None? ==> r == Success(default)
    ensures Lookup(ms, key).Some? && Lookup(ms, key).value.JString? ==>
      var s := Lookup(ms, key).value.s;
      (r.Success? <==> IsIntLiteral(s)) && (r.Success? ==> r.value == LiteralValue(s))
    ensures Lookup(ms, key).Some? && Lookup(ms, key).value.JNumber? ==>
      r == Success(Trunc(Lookup(ms, key).value.n))
    ensures Lookup(ms, key).Some? && !Lookup(ms, key).value.JString? && !Lookup(ms, key).value.JNumber? ==>
      r.Failure?
  {
    match Lookup(ms, key)
    case None => Success(default)
    case Some(v) => ValueToInt(v)
  }

  /** One entry of the data object: the label value must be an object; its
      ttl and max_hosts override the zone defaults; every record kind present
      is compiled (CompileLabelSpec); unknown keys are ignored. */
  function CompileLabel(name: string, dv: Json, opts: Options, origin: string,
                        isIP: string -> bool): (r: Result<Label>)
    ensures !dv.JObject? ==> r.Failure?
    ensures r.Success? ==> dv.JObject? && r.value.name == name
    ensures r.Success? ==>
      && LookupInt(dv.members, "ttl", opts.ttl) == Success(r.value.ttl)
      && LookupInt(dv.members, "max_hosts", opts.maxHosts) == Success(r.value.maxHosts)
  {
    if !dv.JObject? then Failure(BadDocument("label value is not an object"))
    else
      var ms := dv.members;
      var ttl :- LookupInt(ms, "ttl", opts.ttl);
      var maxHosts :- LookupInt(ms, "max_hosts", opts.maxHosts);
      CompileKinds(AllKinds, ms, NewLabel(name, opts).(ttl := ttl, maxHosts := maxHosts),
                   KindsWith(name, origin, ttl, isIP))
  }

  /** The position of a kind in AllKinds. */
  function KindIndex(k: Kind): (i: nat)
    ensures i < |AllKinds| && AllKinds[i] == k
  {
    match k
    case KindA => 0
    case KindAAAA => 1
    case KindNS => 2
    case KindCNAME => 3
    case KindMX => 4
    case KindAlias => 5
  }

  /** The six kinds are stored under six different types. */
  lemma AllKindsDistinct()
    ensures DistinctTypes(AllKinds)
  {
    forall i, j | 0 <= i < j < |AllKinds|
      ensures AllKinds[i].Type() != AllKinds[j].Type()
    {
    }
  }

  lemma PresentTypesAll(ms: seq<(string, Json)>)
    ensures forall k: Kind :: k.Type() in PresentTypes(AllKinds, ms) <==> Present(ms, k.Key())
  {
    forall k: Kind
      ensures k.Type() in PresentTypes(AllKinds, ms) <==> Present(ms, k.Key())
    {
      var i := KindIndex(k);
      if k.Type() in PresentTypes(AllKinds, ms) {
        var j :| 0 <= j < |AllKinds| && Present(ms, AllKinds[j].Key()) && AllKinds[j].Type() == k.Type();
        AllKindsDistinct();
        assert j == i;
      }
    }
  }

  /** The kind loop of a label compiles exactly when every present kind does. */
  lemma LabelKindsOk(ms: seq<(string, Json)>, l: Label,
                     compile: (Kind, Json) -> Result<(seq<Record>, int)>)
    ensures CompileKinds(AllKinds, ms, l, compile).Success? <==>
      forall k: Kind | Present(ms, k.Key()) :: compile(k, Lookup(ms, k.Key()).value).Success?
  {
    CompileKindsOk(AllKinds, ms, l, compile);
    if !CompileKinds(AllKinds, ms, l, compile).Success? {
      var i :| 0 <= i < |AllKinds| && Present(ms, AllKinds[i].Key()) &&
               !compile(AllKinds[i], Lookup(ms, AllKinds[i].Key()).value).Success?;
    } else {
      forall k: Kind | Present(ms, k.Key())
        ensures compile(k, Lookup(ms, k.Key()).value).Success?
      {
        var i := KindIndex(k);
      }
    }
  }

  /** After the kind loop of a fresh label, a record set is held exactly for
      the present kinds, each as compile makes it, and a weight sum only
      beside a non-empty record set. */
  lemma LabelKindsHeld(ms: seq<(string, Json)>, l: Label,
                       compile: (Kind, Json) -> Result<(seq<Record>, int)>)
    requires |l.records| == 0 && |l.weight| == 0
    ensures var r := CompileKinds(AllKinds, ms, l, compile);
      r.Success? ==>
      && (forall k: Kind :: k.Type() in r.value.records <==> Present(ms, k.Key()))
      && r.value.records.Keys <= KindTypes
      && r.value.weight.Keys <= r.value.records.Keys
      && (forall k: Kind :: k.Type() in r.value.weight <==>
            k.Type() in r.value.records && |r.value.records[k.Type()]| > 0)
      && forall k: Kind | Present(ms, k.Key()) :: HoldsKind(r.value, k, Lookup(ms, k.Key()).value, compile)
  {
    AllKindsDistinct();
    PresentTypesAll(ms);
    CompileKindsKeys(AllKinds, ms, l, compile);
    CompileKindsHolds(AllKinds, ms, l, compile);
    var r := CompileKinds(AllKinds, ms, l, compile);
    if r.Success? {
      forall k: Kind | Present(ms, k.Key())
        ensures HoldsKind(r.value, k, Lookup(ms, k.Key()).value, compile)
      {
        var i := KindIndex(k);
      }
    }
  }

  /** A compiled label holds a record set exactly for the kinds whose key is
      present and not null, each as CompileKind makes it, with a weight sum
      beside each non-empty one; given usable options, the label compiles
      exactly when every present kind does. */
  lemma CompileLabelSpec(name: string, dv: Json, opts: Options, origin: string,
                         isIP: string -> bool)
    ensures var r := CompileLabel(name, dv, opts, origin, isIP);
      r.Success? ==>
      && (forall k: Kind :: (k.Type() in r.value.records <==> Present(dv.members, k.Key())))
      && r.value.records.Keys <= KindTypes
      && r.value.weight.Keys <= r.value.records.Keys
      && (forall k: Kind :: k.Type() in r.value.weight <==>
            k.Type() in r.value.records && |r.value.records[k.Type()]| > 0)
      && forall k: Kind | Present(dv.members, k.Key()) ::
           HoldsKind(r.value, k, Lookup(dv.members, k.Key()).value,
                     KindsWith(name, origin, r.value.ttl, isIP))
    ensures dv.JObject? && LookupInt(dv.members, "ttl", opts.ttl).Success?
            && LookupInt(dv.members, "max_hosts", opts.maxHosts).Success? ==>
      (CompileLabel(name, dv, opts, origin, isIP).Success? <==>
        forall k: Kind | Present(dv.members, k.Key()) ::
          CompileKind(k, Lookup(dv.members, k.Key()).value, name, origin,
                      LookupInt(dv.members, "ttl", opts.ttl).value, isIP).Success?)
  {
    if dv.JObject? {
      var ms := dv.members;
      var ttl := LookupInt(ms, "ttl", opts.ttl);
      var maxHosts := LookupInt(ms, "max_hosts", opts.maxHosts);
      if ttl.Success? && maxHosts.Success? {
        var l := NewLabel(name, opts).(ttl := ttl.value, maxHosts := maxHosts.value);
        var compile := KindsWith(name, origin, ttl.value, isIP);
        assert CompileLabel(name, dv, opts, origin, isIP) == CompileKinds(AllKinds, ms, l, compile);
        LabelKindsOk(ms, l, compile);
        LabelKindsHeld(ms, l, compile);
      }
    }
  }

  /** CompileLabelSpec without the bound on the record types: what the
      lemmas about particular labels need. */
  lemma CompileLabelKinds(name: string, dv: Json, opts: Options, origin: string,
                          isIP: string -> bool)
    ensures var r := CompileLabel(name, dv, opts, origin, isIP);
      r.Success? ==>
      && (forall k: Kind :: (k.Type() in r.value.records <==> Present(dv.members, k.Key())))
      && r.value.weight.Keys <= r.value.records.Keys
      && (forall k: Kind :: k.Type() in r.value.weight <==>
            k.Type() in r.value.records && |r.value.records[k.Type()]| > 0)
      && forall k: Kind | Present(dv.members, k.Key()) ::
           HoldsKind(r.value, k, Lookup(dv.members, k.Key()).value,
                     KindsWith(name, origin, r.value.ttl, isIP))
    ensures dv.JObject? && LookupInt(dv.members, "ttl", opts.ttl).Success?
            && LookupInt(dv.members, "max_hosts", opts.maxHosts).Success? ==>
      (CompileLabel(name, dv, opts, origin, isIP).Success? <==>
        forall k: Kind | Present(dv.members, k.Key()) ::
          CompileKind(k, Lookup(dv.members, k.Key()).value, name, origin,
                      LookupInt(dv.members, "ttl", opts.ttl).value, isIP).Success?)
  {
    CompileLabelSpec(name, dv, opts, origin, isIP);
  }
}
