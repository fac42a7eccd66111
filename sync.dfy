/** The reconciliation pipeline of `main` (main.go:106-228), from the parsed
    zone file and the provider's record list to the plan, without the I/O. */
module Sync {
  import opened ZoneNames
  import opened DnsTokens
  import opened Records
  import opened TokenContainers
  import opened Collect
  import opened Matching
  import opened Plan

  /** The flags of freshly built containers and records. */
  function Unset(n: nat): (flags: seq<bool>)
    ensures |flags| == n && NoneSet(flags)
  {
    seq(n, _ => false)
  }

  /** The remote records the matching pass left unmarked. */
  ghost function Unmatched(records: seq<Record>): set<DomainRecord>
    reads records
  {
    set i | 0 <= i < |records| && !records[i].matched :: records[i].record
  }

  /** The tokens the matching pass left unmarked. */
  ghost function Pending(tokens: seq<TokenContainer>): set<TokenContainer>
    reads tokens
  {
    set k | 0 <= k < |tokens| && !tokens[k].matched :: tokens[k]
  }

  /** The matching pass (main.go:148-156) over records and tokens whose flags
      are still clear. */
  method MatchFresh(z: ZoneName, records: seq<Record>, tokens: seq<TokenContainer>,
                    parseIP: string -> Option<Address>)
    requires forall i :: 0 <= i < |records| ==> records[i].zoneName == z && !records[i].matched
    requires forall k :: 0 <= k < |tokens| ==> !tokens[k].matched
    requires Distinct(records) && Distinct(tokens)
    requires AllWellFormed(Desired(tokens))
    modifies records, tokens
    ensures TokenMatchedFlags(tokens) == TokenFlags(z, Remote(records), Desired(tokens), Unset(|tokens|), |records|, parseIP)
    ensures forall i :: 0 <= i < |records| ==>
              records[i].matched == Claims(z, records[i].record, Desired(tokens),
                                           TokenFlags(z, Remote(records), Desired(tokens), Unset(|tokens|), i, parseIP),
                                           parseIP)
  {
    assert TokenMatchedFlags(tokens) == Unset(|tokens|);
    MatchRecords(z, records, tokens, parseIP);
  }

  /** The diff and the edit inference (main.go:158-187) once the flags are
      set. Unmatched remote records become deletions or edits, unmatched
      tokens become additions unless an unmatched remote record of the same
      name absorbs them, and an edit rewrites a record with the request of an
      unmatched token of that name. */
  method Diff(z: ZoneName, records: seq<Record>, tokens: seq<TokenContainer>, showIP: Address -> string)
    returns (toDelete: set<DomainRecord>, toAdd: map<TokenContainer, EditRequest>,
             toEdit: map<DomainRecord, EditRequest>)
    requires forall k :: 0 <= k < |tokens| ==> Synced(tokens[k].token)
    ensures toDelete !! toEdit.Keys && toDelete + toEdit.Keys == Unmatched(records)
    ensures toAdd.Keys == set t | t in Pending(tokens) && t.token.name !in Fqdns(z, Unmatched(records))
    ensures forall t :: t in toAdd ==> toAdd[t] == CreateRequest(t.token, showIP)
    ensures forall r :: r in toEdit ==>
              exists t :: t in Pending(tokens) && t.token.name == FQDN(z, r.name)
                          && toEdit[r] == CreateRequest(t.token, showIP)
    ensures Fqdns(z, toEdit.Keys) == Fqdns(z, toDelete + toEdit.Keys) * Owners(Pending(tokens))
    ensures OnePerName(z, toEdit.Keys)
    ensures Fqdns(z, toDelete) * Owners(toAdd.Keys) == {}
  {
    var deletes := CollectDeletes(records);
    var adds := CollectAdds(tokens, showIP);
    assert deletes == Unmatched(records);
    assert adds.Keys == Pending(tokens);
    toDelete, toAdd, toEdit := InferEdits(z, deletes, adds, showIP);
    InferredPlanSeparated(z, deletes, adds, toDelete, toAdd, toEdit);
  }

  /** What a run decides: abort for want of a zone name, abort because the
      user did not confirm the plan of `numChanges` calls, or apply the plan. */
  datatype Outcome =
    | NoZoneName
    | Declined(zoneName: ZoneName, tokens: seq<TokenContainer>, toDelete: set<DomainRecord>,
               toAdd: map<TokenContainer, EditRequest>, toEdit: map<DomainRecord, EditRequest>, numChanges: nat)
    | Apply(zoneName: ZoneName, tokens: seq<TokenContainer>, toDelete: set<DomainRecord>,
            toAdd: map<TokenContainer, EditRequest>, toEdit: map<DomainRecord, EditRequest>)

  /** The token `t` is well formed and no remote record is equivalent to it. */
  predicate Unmatchable(z: ZoneName, remote: seq<DomainRecord>, t: RR, parseIP: string -> Option<Address>) {
    WellFormed(t) && forall i :: 0 <= i < |remote| ==> !Matches(z, remote[i], t, parseIP)
  }

  /** The provider's records wrapped for the matching pass
      (main.go:140-146), unmarked and in the provider's order. */
  method WrapRecords(remote: seq<DomainRecord>, zoneName: ZoneName) returns (records: seq<Record>)
    ensures |records| == |remote| && Remote(records) == remote && Distinct(records)
    ensures forall i :: 0 <= i < |records| ==>
              records[i].zoneName == zoneName && !records[i].matched && fresh(records[i])
  {
    records := [];
    for i := 0 to |remote|
      invariant |records| == i
      invariant forall k :: 0 <= k < i ==>
                  records[k].record == remote[k] && records[k].zoneName == zoneName && !records[k].matched
                  && fresh(records[k])
      invariant Distinct(records)
    {
      var rec := new Record(remote[i], zoneName);
      records := records + [rec];
    }
  }

  /** The tokens no remote record is equivalent to. */
  function Unanswered(z: ZoneName, remote: seq<DomainRecord>, tokens: seq<TokenContainer>,
                      parseIP: string -> Option<Address>): (ts: set<TokenContainer>)
  {
    set t | t in tokens && Unmatchable(z, remote, t.token, parseIP)
  }

  /** The remote records, by value, that take no token in the matching pass:
      record `i` takes a token when it matches one that the records before it
      left unmarked. */
  function Dropped(z: ZoneName, remote: seq<DomainRecord>, toks: seq<RR>, parseIP: string -> Option<Address>)
    : (dropped: set<DomainRecord>)
    requires AllWellFormed(toks)
  {
    set i | 0 <= i < |remote| && !Claims(z, remote[i], toks, TokenFlags(z, remote, toks, Unset(|toks|), i, parseIP), parseIP)
      :: remote[i]
  }

  /** No token is equivalent to the remote record `r`. */
  predicate Unwanted(z: ZoneName, r: DomainRecord, toks: seq<RR>, parseIP: string -> Option<Address>) {
    forall k :: 0 <= k < |toks| ==> WellFormed(toks[k]) && !Matches(z, r, toks[k], parseIP)
  }

  /** From the provider's records and the collected tokens to the plan
      (main.go:140-187). A token stays unmarked exactly when no remote record
      is equivalent to it. Deletions and edits are exactly the remote records
      that took no token, which includes every record no token is equivalent
      to. Additions are the
      unanswered tokens whose name no deleted or edited record has, each with
      its request. Edits go to exactly the names that have both an unmarked
      record and an unanswered token, one record per name, with the request
      of an unanswered token of that name. */
  method Reconcile(z: ZoneName, remote: seq<DomainRecord>, tokens: seq<TokenContainer>,
                   parseIP: string -> Option<Address>, showIP: Address -> string)
    returns (toDelete: set<DomainRecord>, toAdd: map<TokenContainer, EditRequest>,
             toEdit: map<DomainRecord, EditRequest>)
    requires forall k :: 0 <= k < |tokens| ==> Synced(tokens[k].token) && !tokens[k].matched
    requires Distinct(tokens) && AllWellFormed(Desired(tokens))
    modifies tokens
    ensures forall k :: 0 <= k < |tokens| ==>
              (tokens[k].matched <==> !Unmatchable(z, remote, tokens[k].token, parseIP))
    ensures toDelete !! toEdit.Keys
    ensures forall r :: r in toDelete + toEdit.Keys ==> r in remote
    ensures forall i :: 0 <= i < |remote| && Unwanted(z, remote[i], Desired(tokens), parseIP) ==>
              remote[i] in toDelete + toEdit.Keys
    ensures toDelete + toEdit.Keys == Dropped(z, remote, Desired(tokens), parseIP)
    ensures toAdd.Keys == set t | t in Unanswered(z, remote, tokens, parseIP)
                                  && t.token.name !in Fqdns(z, toDelete + toEdit.Keys)
    ensures forall t :: t in toAdd ==> toAdd[t] == CreateRequest(t.token, showIP)
    ensures Fqdns(z, toEdit.Keys) == Fqdns(z, toDelete + toEdit.Keys) * Owners(Unanswered(z, remote, tokens, parseIP))
    ensures forall r :: r in toEdit ==>
              exists t :: t in Unanswered(z, remote, tokens, parseIP)
                          && t.token.name == FQDN(z, r.name) && toEdit[r] == CreateRequest(t.token, showIP)
    ensures OnePerName(z, toEdit.Keys)
    ensures Fqdns(z, toDelete) * Owners(toAdd.Keys) == {}
  {
    var records := WrapRecords(remote, z);
    ghost var toks := Desired(tokens);
    MatchFresh(z, records, tokens, parseIP);
    toDelete, toAdd, toEdit := Diff(z, records, tokens, showIP);
    ghost var flags := TokenMatchedFlags(tokens);
    assert flags == TokenFlags(z, remote, toks, Unset(|toks|), |remote|, parseIP);
    PendingUnmatchable(z, remote, tokens, toks, flags, parseIP);
    assert Pending(tokens) == Unanswered(z, remote, tokens, parseIP);
    UnmatchedRecords(z, remote, records, toks, parseIP);
  }

  /** A token is pending exactly when it is unmatchable, once the flags are
      those of the matching pass from clear flags. */
  lemma PendingUnmatchable(z: ZoneName, remote: seq<DomainRecord>, tokens: seq<TokenContainer>, toks: seq<RR>,
                           flags: seq<bool>, parseIP: string -> Option<Address>)
    requires toks == Desired(tokens) && flags == TokenMatchedFlags(tokens) && AllWellFormed(toks)
    requires flags == TokenFlags(z, remote, toks, Unset(|toks|), |remote|, parseIP)
    ensures forall k :: 0 <= k < |tokens| ==> (tokens[k].matched <==> !Unmatchable(z, remote, tokens[k].token, parseIP))
    ensures forall t :: t in Pending(tokens) <==> t in tokens && Unmatchable(z, remote, t.token, parseIP)
  {
    forall k | 0 <= k < |tokens|
      ensures tokens[k].matched <==> !Unmatchable(z, remote, tokens[k].token, parseIP)
    {
      assert flags[k] == tokens[k].matched && toks[k] == tokens[k].token;
    }
  }

  /** The unmarked remote records, by value, once the records' flags are those
      of the matching pass from clear flags. */
  lemma UnmatchedRecords(z: ZoneName, remote: seq<DomainRecord>, records: seq<Record>, toks: seq<RR>,
                         parseIP: string -> Option<Address>)
    requires Remote(records) == remote && AllWellFormed(toks)
    requires forall i :: 0 <= i < |records| ==>
               records[i].matched == Claims(z, records[i].record, toks,
                                            TokenFlags(z, remote, toks, Unset(|toks|), i, parseIP), parseIP)
    ensures forall r :: r in Unmatched(records) ==> r in remote
    ensures forall i :: 0 <= i < |remote| && Unwanted(z, remote[i], toks, parseIP) ==> remote[i] in Unmatched(records)
    ensures Unmatched(records) == Dropped(z, remote, toks, parseIP)
  {
    forall r | r in Unmatched(records)
      ensures r in remote
    {
      var i :| 0 <= i < |records| && !records[i].matched && records[i].record == r;
      assert remote[i] == r;
    }
    forall i | 0 <= i < |remote| && !Claims(z, remote[i], toks, TokenFlags(z, remote, toks, Unset(|toks|), i, parseIP), parseIP)
      ensures remote[i] in Unmatched(records)
    {
      assert records[i].record == remote[i] && !records[i].matched;
    }
    forall r | r in Unmatched(records)
      ensures r in Dropped(z, remote, toks, parseIP)
    {
      var i :| 0 <= i < |records| && !records[i].matched && records[i].record == r;
      assert remote[i] == r;
    }
  }

  /** `Reconcile` on the containers the collection loop built from `parsed`:
      the same plan, stated over the records kept from the parser. */
  method ReconcileParsed(z: ZoneName, parsed: seq<Token>, remote: seq<DomainRecord>, tokens: seq<TokenContainer>,
                         parseIP: string -> Option<Address>, showIP: Address -> string)
    returns (toDelete: set<DomainRecord>, toAdd: map<TokenContainer, EditRequest>,
             toEdit: map<DomainRecord, EditRequest>)
    requires forall i :: 0 <= i < |parsed| && parsed[i].Parsed? ==> WellFormed(parsed[i].rr)
    requires |tokens| == |SyncedRecords(parsed)|
    requires forall k :: 0 <= k < |tokens| ==> tokens[k].token == SyncedRecords(parsed)[k] && !tokens[k].matched
    requires Distinct(tokens)
    modifies tokens
    ensures Desired(tokens) == SyncedRecords(parsed) && AllWellFormed(SyncedRecords(parsed))
    ensures forall t :: t in tokens ==> Synced(t.token)
    ensures toDelete !! toEdit.Keys
    ensures toDelete + toEdit.Keys == Dropped(z, remote, SyncedRecords(parsed), parseIP)
    ensures toAdd.Keys == set t | t in Unanswered(z, remote, tokens, parseIP)
                                  && t.token.name !in Fqdns(z, toDelete + toEdit.Keys)
    ensures forall t :: t in toAdd ==> toAdd[t] == CreateRequest(t.token, showIP)
    ensures Fqdns(z, toEdit.Keys) == Fqdns(z, toDelete + toEdit.Keys) * Owners(Unanswered(z, remote, tokens, parseIP))
    ensures forall r :: r in toEdit ==>
              exists t :: t in Unanswered(z, remote, tokens, parseIP)
                          && t.token.name == FQDN(z, r.name) && toEdit[r] == CreateRequest(t.token, showIP)
    ensures OnePerName(z, toEdit.Keys)
    ensures Fqdns(z, toDelete) * Owners(toAdd.Keys) == {}
  {
    forall k | 0 <= k < |tokens|
      ensures WellFormed(tokens[k].token)
    {
      SyncedRecordFromParser(parsed, k);
    }
    assert Desired(tokens) == SyncedRecords(parsed);
    toDelete, toAdd, toEdit := Reconcile(z, remote, tokens, parseIP, showIP);
  }

  /** One run of `main` after the zone file is parsed and the provider's
      records are fetched (`remote`). `yes` is the `-yes` flag and `answer` the
      line typed at the prompt. The plan, applied or declined, is the one
      `Reconcile` describes, over the records kept from the parser: deletions
      and edits are exactly the provider records that took no token, additions
      exactly the containers nothing matches whose name no deleted or edited
      record has, and edits the shared names with the request of a container
      of that name. The run declines exactly when it asks (no `-yes`, some
      change to make) and the answer is not "y" or "Y". */
  method Run(parsed: seq<Token>, remote: seq<DomainRecord>, yes: bool, answer: string,
             parseIP: string -> Option<Address>, showIP: Address -> string)
    returns (out: Outcome)
    requires forall i :: 0 <= i < |parsed| && parsed[i].Parsed? ==> WellFormed(parsed[i].rr)
    ensures out.NoZoneName? <==> !ZoneDerived(ZoneFromSoa(parsed))
    ensures !out.NoZoneName? ==> out.zoneName == ZoneFromSoa(parsed) && ZoneDerived(out.zoneName)
    ensures out.Declined? <==> !out.NoZoneName? && !Proceeds(yes, NumChanges(out.toDelete, out.toAdd, out.toEdit), answer)
    ensures out.Declined? ==> out.numChanges == NumChanges(out.toDelete, out.toAdd, out.toEdit)
    ensures !out.NoZoneName? ==> Desired(out.tokens) == SyncedRecords(parsed) && AllWellFormed(SyncedRecords(parsed))
    ensures !out.NoZoneName? ==> forall t :: t in out.tokens ==> Synced(t.token)
    ensures !out.NoZoneName? ==> Distinct(out.tokens)
    ensures !out.NoZoneName? ==> out.toDelete !! out.toEdit.Keys
    ensures !out.NoZoneName? ==>
              out.toDelete + out.toEdit.Keys == Dropped(out.zoneName, remote, SyncedRecords(parsed), parseIP)
    ensures !out.NoZoneName? ==>
              out.toAdd.Keys == set t | t in Unanswered(out.zoneName, remote, out.tokens, parseIP)
                                        && t.token.name !in Fqdns(out.zoneName, out.toDelete + out.toEdit.Keys)
    ensures !out.NoZoneName? ==> forall t :: t in out.toAdd ==> out.toAdd[t] == CreateRequest(t.token, showIP)
    ensures !out.NoZoneName? ==>
              Fqdns(out.zoneName, out.toEdit.Keys) ==
              Fqdns(out.zoneName, out.toDelete + out.toEdit.Keys) * Owners(Unanswered(out.zoneName, remote, out.tokens, parseIP))
    ensures !out.NoZoneName? ==> forall r :: r in out.toEdit ==>
              exists t :: t in Unanswered(out.zoneName, remote, out.tokens, parseIP)
                          && t.token.name == FQDN(out.zoneName, r.name) && out.toEdit[r] == CreateRequest(t.token, showIP)
    ensures !out.NoZoneName? ==> OnePerName(out.zoneName, out.toEdit.Keys)
    ensures !out.NoZoneName? ==> Fqdns(out.zoneName, out.toDelete) * Owners(out.toAdd.Keys) == {}
  {
    var zoneTokens, zoneName := CollectTokens(parsed);
    if Join(zoneName, "") == "" {
      return NoZoneName;
    }
    var toDelete, toAdd, toEdit := ReconcileParsed(zoneName, parsed, remote, zoneTokens, parseIP, showIP);
    if !yes {
      var numChanges := |toDelete|;
      numChanges := numChanges + |toAdd|;
      numChanges := numChanges + |toEdit|;
      if numChanges > 0 && !(answer == "y" || answer == "Y") {
        return Declined(zoneName, zoneTokens, toDelete, toAdd, toEdit, numChanges);
      }
    }
    out := Apply(zoneName, zoneTokens, toDelete, toAdd, toEdit);
  }

  /** AAAA and SRV records are never collected from the zone file, so every
      provider record of those types takes no token: each one is deleted or
      overwritten by an edit, even when the zone file lists it. */
  lemma UncollectedTypesDropped(z: ZoneName, parsed: seq<Token>, remote: seq<DomainRecord>,
                                parseIP: string -> Option<Address>)
    requires AllWellFormed(SyncedRecords(parsed))
    ensures forall i :: 0 <= i < |remote| && remote[i].typ in {"AAAA", "SRV"} ==>
              remote[i] in Dropped(z, remote, SyncedRecords(parsed), parseIP)
  {
    var toks := SyncedRecords(parsed);
    forall i | 0 <= i < |remote| && remote[i].typ in {"AAAA", "SRV"}
      ensures remote[i] in Dropped(z, remote, toks, parseIP)
    {
      forall k | 0 <= k < |toks|
        ensures !Matches(z, remote[i], toks[k], parseIP)
      {
        assert Synced(toks[k]);
      }
    }
  }
}
