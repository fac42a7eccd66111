/** Zone names and hostname expansion (proxy/ZoneName.go). */
module ZoneNames {

  /** A zone name: by convention without the trailing dot. Go's `ZoneName` is a
      plain string type, so any string (the zero value "" included) is a value. */
  datatype ZoneName = ZoneName(name: string)

  /** True when every character of `s` is a dot. */
  predicate AllDots(s: string) {
    forall i :: 0 <= i < |s| ==> s[i] == '.'
  }

  /** Neither the first nor the last character of `s` is a dot. */
  predicate NoEdgeDots(s: string) {
    s == [] || (s[0] != '.' && s[|s| - 1] != '.')
  }

  /** `strings.TrimLeft(s, ".")`: drops every leading dot. */
  function TrimLeftDots(s: string): (r: string)
    ensures |r| <= |s| && r == s[|s| - |r|..]
    ensures AllDots(s[..|s| - |r|])
    ensures r == [] || r[0] != '.'
    decreases |s|
  {
    if |s| > 0 && s[0] == '.' then TrimLeftDots(s[1..]) else s
  }

  /** `strings.TrimRight(s, ".")`: drops every trailing dot. */
  function TrimRightDots(s: string): (r: string)
    ensures |r| <= |s| && r == s[..|r|]
    ensures AllDots(s[|r|..])
    ensures r == [] || r[|r| - 1] != '.'
    decreases |s|
  {
    if |s| > 0 && s[|s| - 1] == '.' then TrimRightDots(s[..|s| - 1]) else s
  }

  /** `strings.Trim(s, ".")`, which Go defines as TrimRight of TrimLeft. */
  function TrimDots(s: string): (r: string)
    ensures NoEdgeDots(r) && |r| <= |s|
  {
    var l := TrimLeftDots(s);
    var r := TrimRightDots(l);
    assert r != [] ==> r[0] == l[0];
    r
  }

  /** `NewZoneName`: strips every leading and trailing dot, not only one. */
  function NewZoneName(raw: string): (z: ZoneName)
    ensures NoEdgeDots(z.name)
  {
    ZoneName(TrimDots(raw))
  }

  /** `ZoneName.String`: expands a hostname against the zone without the
      trailing dot; "" and "@" both denote the apex. */
  function Join(z: ZoneName, hostname: string): (r: string) {
    if hostname == "" then z.name
    else if hostname == "@" then z.name
    else hostname + "." + z.name
  }

  /** `ZoneName.FQDN`: the expansion with a trailing dot. */
  function FQDN(z: ZoneName, hostname: string): (r: string) {
    Join(z, hostname) + "."
  }

  /** Hostnames that expand to the zone apex. */
  predicate IsApex(hostname: string) {
    hostname == "" || hostname == "@"
  }

  /** The normalised name is what is left once the dots at both ends are cut
      off, and it has no dot at either end. */
  lemma NewZoneNameShape(raw: string)
    ensures NoEdgeDots(NewZoneName(raw).name)
    ensures exists i, j :: 0 <= i <= j <= |raw| && AllDots(raw[..i]) && AllDots(raw[j..])
                           && NewZoneName(raw).name == raw[i..j]
  {
    var l := TrimLeftDots(raw);
    var r := TrimRightDots(l);
    var i := |raw| - |l|;
    var j := i + |r|;
    assert l == raw[i..];
    assert raw[i..j] == r by {
      assert raw[i..j] == raw[i..][..|r|];
    }
    assert raw[j..] == l[|r|..] by {
      assert raw[j..] == raw[i..][|r|..];
    }
    assert NewZoneName(raw).name == raw[i..j];
  }

  /** Trimming leaves nothing exactly when the string is made of dots only. */
  lemma TrimDotsEmptyIffAllDots(s: string)
    ensures TrimDots(s) == "" <==> AllDots(s)
  {
    var l := TrimLeftDots(s);
    assert s == s[..|s| - |l|] + l;
    if l != [] {
      assert l[0] != '.';
      assert s[|s| - |l|] == l[0];
    }
  }

  /** Trimming a string without edge dots changes nothing. */
  lemma TrimDotsNoEdge(s: string)
    requires NoEdgeDots(s)
    ensures TrimDots(s) == s
  {
  }

  /** `NewZoneName` is idempotent. */
  lemma NewZoneNameIdempotent(raw: string)
    ensures NewZoneName(NewZoneName(raw).name) == NewZoneName(raw)
  {
    NewZoneNameShape(raw);
    TrimDotsNoEdge(NewZoneName(raw).name);
  }

  /** The apex hostnames expand to the bare zone name, and their FQDN to the
      zone name with one dot appended. */
  lemma ApexExpansion(z: ZoneName, hostname: string)
    requires IsApex(hostname)
    ensures Join(z, hostname) == z.name
    ensures FQDN(z, hostname) == z.name + "."
  {
  }

  /** Any other hostname is prefixed to the zone, separated by one dot. */
  lemma RelativeExpansion(z: ZoneName, hostname: string)
    requires !IsApex(hostname)
    ensures Join(z, hostname) == hostname + "." + z.name
    ensures FQDN(z, hostname) == hostname + "." + z.name + "."
  {
  }

  /** Every expansion ends with the zone name, and every FQDN with a dot. */
  lemma ExpansionSuffix(z: ZoneName, hostname: string)
    ensures |z.name| <= |Join(z, hostname)|
    ensures Join(z, hostname)[|Join(z, hostname)| - |z.name|..] == z.name
    ensures FQDN(z, hostname) == Join(z, hostname) + "."
    ensures FQDN(z, hostname)[|FQDN(z, hostname)| - 1] == '.'
  {
  }

  /** Two hostnames expand to the same name exactly when they are equal or both
      denote the apex: expansion loses no information besides "" versus "@". */
  lemma {:induction false} JoinInjective(z: ZoneName, h1: string, h2: string)
    ensures Join(z, h1) == Join(z, h2) <==> (h1 == h2 || (IsApex(h1) && IsApex(h2)))
    ensures FQDN(z, h1) == FQDN(z, h2) <==> Join(z, h1) == Join(z, h2)
  {
    if Join(z, h1) == Join(z, h2) && !IsApex(h1) && !IsApex(h2) {
      var s := Join(z, h1);
      assert h1 == s[..|h1|];
      assert |h1| == |h2|;
      assert h2 == s[..|h2|];
    }
    var f1, f2 := FQDN(z, h1), FQDN(z, h2);
    if f1 == f2 {
      assert Join(z, h1) == f1[..|f1| - 1];
      assert Join(z, h2) == f2[..|f2| - 1];
    }
  }
}
