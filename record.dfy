/** Remote records and the equivalence predicate (proxy/Record.go). */
module Records {
  import opened ZoneNames
  import opened DnsTokens

  /** The fields of godo's `DomainRecord` that the engine reads: the provider's
      id, the type string, the owner name relative to the zone, the data and
      the MX/SRV numbers. */
  datatype DomainRecord = DomainRecord(
    id: int,
    typ: string,
    name: string,
    data: string,
    priority: int,
    port: int)

  /** `Record`: a DomainRecord of the zone, with the sync flag that the
      matching pass sets. */
  class Record {
    const record: DomainRecord
    const zoneName: ZoneName
    var matched: bool

    /** `NewRecord`. */
    constructor (record: DomainRecord, zoneName: ZoneName)
      ensures this.record == record && this.zoneName == zoneName && !matched
    {
      this.record := record;
      this.zoneName := zoneName;
      matched := false;
    }
  }

  /** `Record.Matches`: whether the remote record `r` of zone `z` denotes the
      same DNS fact as the zone-file record `t`. The owner names must agree
      once the remote name is expanded; then the remote type string picks the
      comparison. Addresses are compared parsed (`parseIP` stands for
      `net.ParseIP`), and an unknown remote type never matches. */
  predicate Matches(z: ZoneName, r: DomainRecord, t: RR, parseIP: string -> Option<Address>)
    requires WellFormed(t)
  {
    if FQDN(z, r.name) != t.name then false
    else if r.typ == "A" then t.A? && parseIP(r.data) == Some(t.a)
    else if r.typ == "AAAA" then t.AAAA? && parseIP(r.data) == Some(t.aaaa)
    else if r.typ == "CNAME" then t.CNAME? && t.target == FQDN(z, r.data)
    else if r.typ == "NS" then t.NS? && t.ns == r.data + "."
    else if r.typ == "MX" then t.MX? && t.preference == r.priority && t.mx == r.data + "."
    else if r.typ == "SRV" then
      t.SRV? && t.priority == r.priority && t.port == r.port && t.target == r.data + "."
    else if r.typ == "TXT" then t.TXT? && t.txt[0] == r.data
    else false
  }

  /** The remote types the predicate knows. */
  predicate KnownType(typ: string) {
    typ in {"A", "AAAA", "CNAME", "NS", "MX", "SRV", "TXT"}
  }

  /** A match implies that the expanded remote owner name is the token's owner
      name, and that the remote type string is the token's type mnemonic; an
      unknown remote type therefore never matches. */
  lemma MatchesOwnerAndType(z: ZoneName, r: DomainRecord, t: RR, parseIP: string -> Option<Address>)
    requires WellFormed(t)
    ensures Matches(z, r, t, parseIP) ==> FQDN(z, r.name) == t.name
    ensures Matches(z, r, t, parseIP) ==> r.typ == TypeName(t) && KnownType(r.typ)
  {
  }

  /** The per-type rules, once owner names and types agree. */
  lemma MatchesByType(z: ZoneName, r: DomainRecord, t: RR, parseIP: string -> Option<Address>)
    requires WellFormed(t) && FQDN(z, r.name) == t.name && r.typ == TypeName(t)
    ensures t.A? ==> (Matches(z, r, t, parseIP) <==> parseIP(r.data) == Some(t.a))
    ensures t.AAAA? ==> (Matches(z, r, t, parseIP) <==> parseIP(r.data) == Some(t.aaaa))
    ensures t.CNAME? ==> (Matches(z, r, t, parseIP) <==> t.target == FQDN(z, r.data))
    ensures t.NS? ==> (Matches(z, r, t, parseIP) <==> t.ns == r.data + ".")
    ensures t.MX? ==> (Matches(z, r, t, parseIP) <==> t.preference == r.priority && t.mx == r.data + ".")
    ensures t.SRV? ==> (Matches(z, r, t, parseIP) <==>
      t.priority == r.priority && t.port == r.port && t.target == r.data + ".")
    ensures t.TXT? ==> (Matches(z, r, t, parseIP) <==> t.txt[0] == r.data)
    ensures t.SOA? || t.Other? ==> !Matches(z, r, t, parseIP)
  {
  }

  /** Relative CNAME data is expanded against the zone before comparison: a
      remote target "www" in zone "example.com" matches the token target
      "www.example.com.", and an apex target matches the zone's FQDN. */
  lemma CnameDataExpanded(z: ZoneName, r: DomainRecord, t: RR, parseIP: string -> Option<Address>)
    requires t.CNAME? && r.typ == "CNAME" && FQDN(z, r.name) == t.name
    ensures !IsApex(r.data) ==> (Matches(z, r, t, parseIP) <==> t.target == r.data + "." + z.name + ".")
    ensures IsApex(r.data) ==> (Matches(z, r, t, parseIP) <==> t.target == z.name + ".")
  {
    if IsApex(r.data) {
      ApexExpansion(z, r.data);
    } else {
      RelativeExpansion(z, r.data);
    }
  }

  /** Only the first text segment is compared; the others are ignored. */
  lemma TxtLaterSegmentsIgnored(z: ZoneName, r: DomainRecord, name: string, first: string,
                                rest1: seq<string>, rest2: seq<string>, parseIP: string -> Option<Address>)
    ensures Matches(z, r, TXT(name, [first] + rest1), parseIP) == Matches(z, r, TXT(name, [first] + rest2), parseIP)
  {
  }

  /** The two spellings of the apex are interchangeable as remote owner names. */
  lemma ApexOwnersAlike(z: ZoneName, r: DomainRecord, t: RR, parseIP: string -> Option<Address>)
    requires WellFormed(t)
    ensures Matches(z, r.(name := "@"), t, parseIP) == Matches(z, r.(name := ""), t, parseIP)
  {
  }
}
