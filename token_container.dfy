/** Zone-file tokens with their sync flag, and the request that creates them
    at the provider (tokenContainer.go). */
module TokenContainers {
  import opened ZoneNames
  import opened DnsTokens
  import opened Records

  /** The fields of godo's `DomainRecordEditRequest` that are filled in. */
  datatype EditRequest = EditRequest(typ: string, name: string, data: string, priority: int, port: int)

  /** `tokenContainer`: a parsed token and whether the matching pass paired it
      with a remote record. */
  class TokenContainer {
    const token: RR
    var matched: bool

    constructor (token: RR)
      ensures this.token == token && !matched
    {
      this.token := token;
      matched := false;
    }
  }

  /** `strings.Join(segments, sep)`. */
  function JoinStrings(segments: seq<string>, sep: string): (r: string)
    decreases |segments|
  {
    if |segments| == 0 then ""
    else if |segments| == 1 then segments[0]
    else segments[0] + sep + JoinStrings(segments[1..], sep)
  }

  /** The sum of the segment lengths. */
  function TotalLength(segments: seq<string>): nat
    decreases |segments|
  {
    if segments == [] then 0 else |segments[0]| + TotalLength(segments[1..])
  }

  /** A join holds every character of the segments plus one separator between
      each two of them, and starts with the first segment. */
  lemma {:induction false} JoinStringsShape(segments: seq<string>, sep: string)
    requires |segments| > 0
    ensures |JoinStrings(segments, sep)| == TotalLength(segments) + (|segments| - 1) * |sep|
    ensures |segments[0]| <= |JoinStrings(segments, sep)|
    ensures JoinStrings(segments, sep)[..|segments[0]|] == segments[0]
    decreases |segments|
  {
    if |segments| > 1 {
      JoinStringsShape(segments[1..], sep);
    }
  }

  /** Joining with a one-character separator gives back the first segment
      exactly when there is only one segment. */
  lemma JoinEqualsFirstIffSingle(segments: seq<string>, sep: string)
    requires |segments| > 0 && |sep| == 1
    ensures JoinStrings(segments, sep) == segments[0] <==> |segments| == 1
  {
    JoinStringsShape(segments, sep);
    if |segments| > 1 {
      assert TotalLength(segments) >= |segments[0]|;
    }
  }

  /** `tokenContainer.CreateRequest`: the provider request for a synced record.
      Every other type is a fatal error in the source, hence the precondition.
      Name, type and data come from the token as written (CNAME, NS and MX
      targets keep their trailing dot), addresses are printed by `showIP`
      (Go's `net.IP.String`), TXT segments are joined with one space, and only
      MX sets the priority. */
  function CreateRequest(t: RR, showIP: Address -> string): (req: EditRequest)
    requires Synced(t)
    ensures req.name == t.name && req.typ == TypeName(t) && req.port == 0
    ensures req.priority == if t.MX? then t.preference else 0
  {
    match t
    case A(name, a) => EditRequest("A", name, showIP(a), 0, 0)
    case CNAME(name, target) => EditRequest("CNAME", name, target, 0, 0)
    case MX(name, preference, mx) => EditRequest("MX", name, mx, preference, 0)
    case NS(name, ns) => EditRequest("NS", name, ns, 0, 0)
    case TXT(name, txt) => EditRequest("TXT", name, JoinStrings(txt, " "), 0, 0)
  }

  /** The data of a request, by record type. */
  lemma RequestData(t: RR, showIP: Address -> string)
    requires Synced(t)
    ensures t.A? ==> CreateRequest(t, showIP).data == showIP(t.a)
    ensures t.CNAME? ==> CreateRequest(t, showIP).data == t.target
    ensures t.NS? ==> CreateRequest(t, showIP).data == t.ns
    ensures t.MX? ==> CreateRequest(t, showIP).data == t.mx
    ensures t.TXT? ==> CreateRequest(t, showIP).data == JoinStrings(t.txt, " ")
  {
  }

  /** A remote record can only match a token whose request carries the
      record's type and whose request name is the record's expanded name. */
  lemma MatchAgreesWithRequest(z: ZoneName, r: DomainRecord, t: RR,
                               parseIP: string -> Option<Address>, showIP: Address -> string)
    requires Synced(t) && WellFormed(t) && Matches(z, r, t, parseIP)
    ensures CreateRequest(t, showIP).typ == r.typ
    ensures CreateRequest(t, showIP).name == FQDN(z, r.name)
  {
    MatchesOwnerAndType(z, r, t, parseIP);
  }

  /** A TXT record stored with exactly the data its request sent matches the
      token again only if the token has a single segment: the request joins all
      segments while the equivalence check reads only the first, so a
      multi-segment TXT record is never recognised as already present. */
  lemma TxtRequestRoundTrip(z: ZoneName, r: DomainRecord, t: RR,
                            parseIP: string -> Option<Address>, showIP: Address -> string)
    requires t.TXT? && |t.txt| > 0
    requires r.typ == "TXT" && FQDN(z, r.name) == t.name
    requires r.data == CreateRequest(t, showIP).data
    ensures Matches(z, r, t, parseIP) <==> |t.txt| == 1
  {
    JoinEqualsFirstIffSingle(t.txt, " ");
  }
}
