/** Worked scenarios of the reconciliation, proved rather than executed:
    three concrete plans and one general lemma. They show how matching keeps
    an equivalent pair and how edit inference pairs records and tokens by name
    alone (main.go:148-187). */
module Scenarios {
  import opened ZoneNames
  import opened DnsTokens
  import opened Records
  import opened TokenContainers
  import opened Matching
  import opened Plan
  import opened Sync

  /** An A record `www` at the provider and a CNAME `www` in the zone file
      become one edit that turns the record into the CNAME: the names agree,
      and the type is not compared. */
  method TypeChangeIsEdit(parseIP: string -> Option<Address>, showIP: Address -> string)
    returns (toDelete: set<DomainRecord>, toAdd: map<TokenContainer, EditRequest>,
             toEdit: map<DomainRecord, EditRequest>)
    ensures toDelete == {} && toAdd == map[]
    ensures toEdit == map[DomainRecord(1, "A", "www", "192.0.2.1", 0, 0) :=
                          EditRequest("CNAME", "www.example.com.", "lb.example.net.", 0, 0)]
  {
    var z := ZoneName("example.com");
    var rec := DomainRecord(1, "A", "www", "192.0.2.1", 0, 0);
    var token := new TokenContainer(CNAME("www.example.com.", "lb.example.net."));
    assert FQDN(z, rec.name) == "www.example.com.";
    assert !Matches(z, rec, token.token, parseIP);
    assert Unwanted(z, rec, Desired([token]), parseIP);
    toDelete, toAdd, toEdit := Reconcile(z, [rec], [token], parseIP, showIP);
    assert token in Unanswered(z, [rec], [token], parseIP);
    assert [rec][0] == rec;
    assert rec in toDelete + toEdit.Keys;
    assert toDelete + toEdit.Keys == {rec};
    assert "www.example.com." in Fqdns(z, toEdit.Keys);
    assert rec in toEdit;
  }

  /** An NS record `api` at the provider; the zone file holds that NS record
      and a TXT record `api`. The NS pair is recognised, nothing is deleted or
      edited, and only the TXT record is added. */
  method KeepNsAddTxt(parseIP: string -> Option<Address>, showIP: Address -> string)
    returns (txt: TokenContainer, toDelete: set<DomainRecord>, toAdd: map<TokenContainer, EditRequest>,
             toEdit: map<DomainRecord, EditRequest>)
    ensures toDelete == {} && toEdit == map[]
    ensures toAdd == map[txt := EditRequest("TXT", "api.example.com.", "hello", 0, 0)]
  {
    var ns := new TokenContainer(ApiNsToken);
    txt := new TokenContainer(ApiTxtToken);
    var tokens := [ns, txt];
    assert Desired(tokens) == [ns.token, txt.token];
    NsPairMatches(parseIP);
    toDelete, toAdd, toEdit := Reconcile(ApiZone, [ApiNs], tokens, parseIP, showIP);
    OnlyTxtUnanswered(ns, txt, parseIP);
    NothingDroppedAddsAll(ApiZone, toDelete, toAdd, toEdit, {txt});
    assert JoinStrings(["hello"], " ") == "hello";
  }

  /** Of the two containers of `KeepNsAddTxt`, only the TXT one is left
      unanswered. */
  lemma OnlyTxtUnanswered(ns: TokenContainer, txt: TokenContainer, parseIP: string -> Option<Address>)
    requires ns.token == ApiNsToken && txt.token == ApiTxtToken
    ensures Unanswered(ApiZone, [ApiNs], [ns, txt], parseIP) == {txt}
  {
    OnlyTxtUnmatchable(parseIP);
  }

  /** When no provider record is dropped, nothing is deleted or edited and
      every unanswered container is added. */
  lemma NothingDroppedAddsAll(z: ZoneName, toDelete: set<DomainRecord>, toAdd: map<TokenContainer, EditRequest>,
                              toEdit: map<DomainRecord, EditRequest>, queued: set<TokenContainer>)
    requires toDelete + toEdit.Keys == {}
    requires toAdd.Keys == set t | t in queued && t.token.name !in Fqdns(z, toDelete + toEdit.Keys)
    ensures toDelete == {} && toEdit == map[] && toAdd.Keys == queued
  {
    assert toEdit.Keys == {};
  }

  /** The record and tokens of `KeepNsAddTxt`. */
  const ApiZone := ZoneName("example.com")
  const ApiNs := DomainRecord(3, "NS", "api", "ns1.example.com", 0, 0)
  const ApiNsToken := NS("api.example.com.", "ns1.example.com.")
  const ApiTxtToken := TXT("api.example.com.", ["hello"])

  /** The NS record matches the NS token, and not the TXT token. */
  lemma ApiMatches(parseIP: string -> Option<Address>)
    ensures Matches(ApiZone, ApiNs, ApiNsToken, parseIP)
    ensures !Matches(ApiZone, ApiNs, ApiTxtToken, parseIP)
  {
    assert FQDN(ApiZone, ApiNs.name) == "api.example.com.";
  }

  /** The NS record takes the NS token, so no record is dropped. */
  lemma NsPairMatches(parseIP: string -> Option<Address>)
    ensures Dropped(ApiZone, [ApiNs], [ApiNsToken, ApiTxtToken], parseIP) == {}
  {
    ApiMatches(parseIP);
    var toks := [ApiNsToken, ApiTxtToken];
    assert toks[0] == ApiNsToken;
    assert Claims(ApiZone, ApiNs, toks, Unset(2), parseIP);
    assert [ApiNs][0] == ApiNs;
  }

  /** Only the TXT token is one that no provider record matches. */
  lemma OnlyTxtUnmatchable(parseIP: string -> Option<Address>)
    ensures !Unmatchable(ApiZone, [ApiNs], ApiNsToken, parseIP)
    ensures Unmatchable(ApiZone, [ApiNs], ApiTxtToken, parseIP)
  {
    ApiMatches(parseIP);
    assert [ApiNs][0] == ApiNs;
  }

  /** One record to delete and any number of queued tokens that all carry its
      expanded name: edit inference turns the record into an edit and empties
      both queues. */
  lemma OneRecordAbsorbsAll(z: ZoneName, rec: DomainRecord, toAdd: map<TokenContainer, EditRequest>,
                            del: set<DomainRecord>, add: map<TokenContainer, EditRequest>,
                            edit: map<DomainRecord, EditRequest>)
    requires toAdd != map[] && forall t :: t in toAdd ==> t.token.name == FQDN(z, rec.name)
    requires edit.Keys <= {rec} && del == {rec} - edit.Keys
    requires add.Keys == set t | t in toAdd.Keys && t.token.name !in Fqdns(z, {rec})
    requires Fqdns(z, edit.Keys) == Fqdns(z, {rec}) * Owners(toAdd.Keys)
    ensures del == {} && add == map[] && edit.Keys == {rec}
  {
    var t :| t in toAdd;
    assert FQDN(z, rec.name) in Owners(toAdd.Keys);
    assert FQDN(z, rec.name) in Fqdns(z, {rec});
    assert FQDN(z, rec.name) in Fqdns(z, edit.Keys);
    assert edit.Keys != {};
    assert add.Keys == {};
  }

  /** An A and a TXT token both named `www`, one unmarked `www` record to
      delete: the one record absorbs both tokens, only one request is kept as
      its edit, and the other token is neither added nor edited into place. */
  method SwallowedToken(addr: Address, showIP: Address -> string)
    returns (queued: map<TokenContainer, EditRequest>, dropped: TokenContainer,
             del: set<DomainRecord>, add: map<TokenContainer, EditRequest>, edit: map<DomainRecord, EditRequest>)
    ensures dropped in queued && |queued| == 2
    ensures del == {} && add == map[] && |edit| == 1
    ensures forall r :: r in edit ==> edit[r] != queued[dropped]
  {
    var z := ZoneName("example.com");
    var rec := DomainRecord(7, "CNAME", "www", "old.example.net", 0, 0);
    var a := new TokenContainer(A("www.example.com.", addr));
    var txt := new TokenContainer(TXT("www.example.com.", ["hello"]));
    var reqA, reqTxt := CreateRequest(a.token, showIP), CreateRequest(txt.token, showIP);
    assert reqA.typ == "A" && reqTxt.typ == "TXT";
    queued := map[a := reqA, txt := reqTxt];
    assert FQDN(z, rec.name) == "www.example.com.";
    assert queued.Keys == {a, txt};
    del, add, edit := InferEdits(z, {rec}, queued, showIP);
    OneRecordAbsorbsAll(z, rec, queued, del, add, edit);
    if edit[rec] == reqA {
      dropped := txt;
    } else {
      dropped := a;
    }
  }
}
