/** The part of the DNS resource-record library the zone compiler uses:
    type codes, headers, record data, and fully-qualified names. */
module Dns {

  /** Record types the compiler produces; MF is how aliases are stored. */
  datatype RRType = TypeA | TypeNS | TypeMF | TypeCNAME | TypeSOA | TypeMX | TypeAAAA {
    /** Type codes of RFC 1035 section 3.2.2 (AAAA: RFC 3596). */
    function Code(): nat {
      match this
      case TypeA => 1
      case TypeNS => 2
      case TypeMF => 4
      case TypeCNAME => 5
      case TypeSOA => 6
      case TypeMX => 15
      case TypeAAAA => 28
    }
  }

  /** The IN class of RFC 1035 section 3.2.4. */
  const ClassINET: nat := 1

  const TwoTo32: nat := 0x1_0000_0000
  const TwoTo16: nat := 0x1_0000

  /** Go's uint32(x) conversion of an int: wrap-around modulo 2^32. */
  function Uint32(x: int): (r: nat)
    ensures r < TwoTo32
    ensures (x - r) % TwoTo32 == 0
    ensures 0 <= x < TwoTo32 ==> r == x
  {
    x % TwoTo32
  }

  /** Go's uint16(x) conversion of an int: wrap-around modulo 2^16. */
  function Uint16(x: int): (r: nat)
    ensures r < TwoTo16
    ensures (x - r) % TwoTo16 == 0
    ensures 0 <= x < TwoTo16 ==> r == x
  {
    x % TwoTo16
  }

  /** dns.IsFqdn: the name ends in a dot. */
  predicate IsFqdn(s: string) {
    |s| > 0 && s[|s| - 1] == '.'
  }

  /** dns.Fqdn: make a name absolute by adding a final dot when it lacks one. */
  function Fqdn(s: string): (r: string)
    ensures IsFqdn(r)
    ensures |s| <= |r| <= |s| + 1 && r[..|s|] == s
    ensures IsFqdn(s) ==> r == s
  {
    if IsFqdn(s) then s else s + "."
  }

  /** The common header of every resource record (RFC 1035 section 3.2.1). */
  datatype Header = Header(name: string, rrtype: nat, rrclass: nat, ttl: nat)

  /** Record data per type. Addresses are kept as the text net.ParseIP accepted. */
  datatype RData =
    | A(a: string)
    | AAAA(aaaa: string)
    | NS(ns: string)
    | CNAME(target: string)
    | MX(mx: string, preference: nat)
    | MF(mf: string)
    | SOA(primary: string, mbox: string, serial: int,
          refresh: nat, retry: nat, expire: nat, minttl: int)

  /** The type a record's data belongs to. */
  function DataType(d: RData): RRType {
    match d
    case A(_) => TypeA
    case AAAA(_) => TypeAAAA
    case NS(_) => TypeNS
    case CNAME(_) => TypeCNAME
    case MX(_, _) => TypeMX
    case MF(_) => TypeMF
    case SOA(_, _, _, _, _, _, _) => TypeSOA
  }

  datatype RR = RR(hdr: Header, data: RData)
}
