/** The compiled zone: options, labels, weighted records. */
module ZoneData {
  import opened Dns

  /** One record of a label together with its selection weight. */
  datatype Record = Record(rr: RR, weight: int)

  /** Zone-wide options read from the top level of a zone file. */
  datatype Options = Options(ttl: int, maxHosts: int, contact: string, serial: int)

  /** The defaults readZoneFile sets before reading the file. */
  const DefaultOptions := Options(120, 2, "support.bitnames.com", 0)

  /** One name of the zone; records and weight sums are keyed by record type. */
  datatype Label = Label(
    name: string,
    ttl: int,
    maxHosts: int,
    records: map<RRType, seq<Record>>,
    weight: map<RRType, int>)

  /** Zone.AddLabel (defined outside zones.go): a fresh label that takes the
      zone's ttl and max_hosts as its defaults. */
  function NewLabel(name: string, opts: Options): (l: Label)
    ensures l.name == name && l.ttl == opts.ttl && l.maxHosts == opts.maxHosts
    ensures |l.records| == 0 && |l.weight| == 0
  {
    Label(name, opts.ttl, opts.maxHosts, map[], map[])
  }

  datatype Zone = Zone(origin: string, options: Options, labels: map<string, Label>, lastRead: int)

  /** new(Zone): every field at its zero value. */
  function EmptyZone(): (z: Zone)
    ensures z.origin == "" && |z.labels| == 0 && z.lastRead == 0
  {
    Zone("", Options(0, 0, "", 0), map[], 0)
  }
}
