/** The zone-file tokens that the reconciliation engine consumes. They are
    produced by the miekg/dns zone parser, which is not part of this model: the
    engine receives them already parsed. */
module DnsTokens {

  /** A parsed IP address (Go's `net.IP`). Its parser and printer are foreign,
      so the type is abstract; `net.IP.Equal` is equality of these values. */
  type Address(==, !new)

  /** Option, for the foreign IP parser that returns nil on bad input. */
  datatype Option<T> = None | Some(value: T)

  /** An unsigned 16-bit field of a resource record (MX preference, SRV
      priority, weight and port). */
  type Uint16 = x: int | 0 <= x < 0x1_0000

  /** The resource record of a token, one constructor per record type the
      engine tells apart; `name` is the owner name as the parser wrote it. */
  datatype RR =
    | A(name: string, a: Address)
    | AAAA(name: string, aaaa: Address)
    | CNAME(name: string, target: string)
    | NS(name: string, ns: string)
    | MX(name: string, preference: Uint16, mx: string)
    | SRV(name: string, priority: Uint16, weight: Uint16, port: Uint16, target: string)
    | TXT(name: string, txt: seq<string>)
    | SOA(name: string)
    | Other(name: string, rrtype: string)

  /** A token of the parser's output channel: a record or a parse error. */
  datatype Token = Parsed(rr: RR) | ParseError(message: string)

  /** The record types the engine synchronises: exactly those `main` collects
      and `CreateRequest` can turn into a request. */
  predicate Synced(rr: RR) {
    rr.A? || rr.CNAME? || rr.MX? || rr.NS? || rr.TXT?
  }

  /** What the source relies on the parser for: a TXT record has at least one
      text segment (the equivalence check reads the first one). */
  predicate WellFormed(rr: RR) {
    rr.TXT? ==> |rr.txt| > 0
  }

  /** The DNS type mnemonic of a record, as DigitalOcean spells record types. */
  function TypeName(rr: RR): (mnemonic: string) {
    match rr
    case A(_, _) => "A"
    case AAAA(_, _) => "AAAA"
    case CNAME(_, _) => "CNAME"
    case NS(_, _) => "NS"
    case MX(_, _, _) => "MX"
    case SRV(_, _, _, _, _) => "SRV"
    case TXT(_, _) => "TXT"
    case SOA(_) => "SOA"
    case Other(_, t) => t
  }
}
