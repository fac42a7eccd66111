/** Token collection and zone-name derivation (main.go:106-138). */
module Collect {
  import opened ZoneNames
  import opened DnsTokens
  import opened TokenContainers

  /** The records `main` keeps from the parser's output, in order: parse errors
      are reported and skipped, SOA only names the zone, and AAAA, SRV and
      every other type are reported as unsupported and skipped. */
  function SyncedRecords(parsed: seq<Token>): (rs: seq<RR>)
    ensures forall k :: 0 <= k < |rs| ==> Synced(rs[k])
    decreases |parsed|
  {
    if parsed == [] then []
    else
      var last := parsed[|parsed| - 1];
      SyncedRecords(parsed[..|parsed| - 1]) + (if last.Parsed? && Synced(last.rr) then [last.rr] else [])
  }

  /** Nothing is lost or duplicated: each synced record occurs in the result as
      often as the parser produced it, and no other record occurs at all. */
  lemma {:induction false} SyncedRecordsCount(parsed: seq<Token>, x: RR)
    ensures multiset(SyncedRecords(parsed))[x] == if Synced(x) then multiset(parsed)[Parsed(x)] else 0
    decreases |parsed|
  {
    if parsed != [] {
      var init := parsed[..|parsed| - 1];
      assert parsed == init + [parsed[|parsed| - 1]];
      SyncedRecordsCount(init, x);
    }
  }

  /** An SOA token whose owner name is not only dots, so that trimming its dots
      leaves a name: one that names the zone. */
  predicate NamesZone(t: Token) {
    t.Parsed? && t.rr.SOA? && !AllDots(t.rr.name)
  }

  /** The index of the last SOA that names the zone, or -1 when none does. */
  function LastNamingSoa(parsed: seq<Token>): (i: int)
    ensures -1 <= i < |parsed|
    ensures i >= 0 ==> NamesZone(parsed[i])
    ensures forall j :: i < j < |parsed| ==> !NamesZone(parsed[j])
    decreases |parsed|
  {
    if parsed == [] then -1
    else if NamesZone(parsed[|parsed| - 1]) then |parsed| - 1
    else
      var init := parsed[..|parsed| - 1];
      assert forall j :: 0 <= j < |init| ==> init[j] == parsed[j];
      LastNamingSoa(init)
  }

  /** The zone name `main` derives: that of the last SOA that names the zone,
      or the empty name when there is none. */
  function ZoneFromSoa(parsed: seq<Token>): (z: ZoneName)
    ensures NoEdgeDots(z.name)
    ensures z.name != "" <==> exists i :: 0 <= i < |parsed| && NamesZone(parsed[i])
    ensures z.name != "" ==> exists i :: 0 <= i < |parsed| && NamesZone(parsed[i])
                               && z == NewZoneName(parsed[i].rr.name)
                               && forall j :: i < j < |parsed| ==> !NamesZone(parsed[j])
  {
    var i := LastNamingSoa(parsed);
    if i < 0 then ZoneName("")
    else
      TrimDotsEmptyIffAllDots(parsed[i].rr.name);
      NewZoneName(parsed[i].rr.name)
  }

  /** The collection loop: a fresh, unmatched container per synced record, in
      the parser's order, and the derived zone name. */
  method CollectTokens(parsed: seq<Token>) returns (zoneTokens: seq<TokenContainer>, zoneName: ZoneName)
    ensures |zoneTokens| == |SyncedRecords(parsed)|
    ensures forall k :: 0 <= k < |zoneTokens| ==>
              zoneTokens[k].token == SyncedRecords(parsed)[k] && !zoneTokens[k].matched && fresh(zoneTokens[k])
    ensures forall a, b :: 0 <= a < b < |zoneTokens| ==> zoneTokens[a] != zoneTokens[b]
    ensures zoneName == ZoneFromSoa(parsed)
  {
    zoneTokens, zoneName := [], ZoneName("");
    ghost var kept: seq<RR> := [];
    for i := 0 to |parsed|
      invariant kept == SyncedRecords(parsed[..i])
      invariant |zoneTokens| == |kept|
      invariant forall k :: 0 <= k < |zoneTokens| ==>
                  zoneTokens[k].token == kept[k] && !zoneTokens[k].matched && fresh(zoneTokens[k])
      invariant forall a, b :: 0 <= a < b < |zoneTokens| ==> zoneTokens[a] != zoneTokens[b]
      invariant zoneName == ZoneFromSoa(parsed[..i])
    {
      CollectStep(parsed, i);
      var token := parsed[i];
      if token.Parsed? {
        var rr := token.rr;
        if rr.A? || rr.CNAME? || rr.MX? || rr.NS? || rr.TXT? {
          var c := new TokenContainer(rr);
          assert forall k :: 0 <= k < |zoneTokens| ==> zoneTokens[k] != c;
          zoneTokens := zoneTokens + [c];
          kept := kept + [rr];
        } else if rr.SOA? {
          var trimmed := TrimDots(rr.name);
          TrimDotsEmptyIffAllDots(rr.name);
          if trimmed != "" {
            zoneName := NewZoneName(rr.name);
          }
        }
      }
    }
    assert parsed[..|parsed|] == parsed;
  }

  /** How the two specifications grow by one token. */
  lemma CollectStep(parsed: seq<Token>, i: nat)
    requires i < |parsed|
    ensures SyncedRecords(parsed[..i + 1]) ==
              SyncedRecords(parsed[..i]) + (if parsed[i].Parsed? && Synced(parsed[i].rr) then [parsed[i].rr] else [])
    ensures ZoneFromSoa(parsed[..i + 1]) ==
              if NamesZone(parsed[i]) then NewZoneName(parsed[i].rr.name) else ZoneFromSoa(parsed[..i])
  {
    assert parsed[..i + 1][..i] == parsed[..i];
  }

  /** `main` aborts before any remote call when no SOA named the zone
      (main.go:136-138); otherwise the zone name is non-empty and trimmed. */
  predicate ZoneDerived(zoneName: ZoneName) {
    Join(zoneName, "") != ""
  }

  /** A derived zone exists exactly when some SOA names the zone, and then it
      is that SOA's owner without dots at either end. */
  lemma ZoneDerivedIff(parsed: seq<Token>)
    ensures ZoneDerived(ZoneFromSoa(parsed)) <==> exists i :: 0 <= i < |parsed| && NamesZone(parsed[i])
    ensures ZoneDerived(ZoneFromSoa(parsed)) ==> NoEdgeDots(ZoneFromSoa(parsed).name)
  {
  }

  /** Every collected record was produced by the parser. */
  lemma SyncedRecordFromParser(parsed: seq<Token>, k: nat)
    requires k < |SyncedRecords(parsed)|
    ensures exists i :: 0 <= i < |parsed| && parsed[i] == Parsed(SyncedRecords(parsed)[k])
  {
    var x := SyncedRecords(parsed)[k];
    SyncedRecordsCount(parsed, x);
    assert x in multiset(SyncedRecords(parsed));
    assert Parsed(x) in multiset(parsed);
  }
}
