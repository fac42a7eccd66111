/** The matching pass of `main` (main.go:148-156): every remote record is
    compared with every token still unmatched, and both flags are set on a
    match. The inner loop does not stop after a match, so one remote record
    may mark several equivalent tokens. */
module Matching {
  import opened ZoneNames
  import opened DnsTokens
  import opened Records
  import opened TokenContainers

  /** The remote records' values, in order. */
  function Remote(records: seq<Record>): (rs: seq<DomainRecord>)
    ensures |rs| == |records| && forall i :: 0 <= i < |records| ==> rs[i] == records[i].record
  {
    seq(|records|, i requires 0 <= i < |records| => records[i].record)
  }

  /** The tokens' records, in order. */
  function Desired(tokens: seq<TokenContainer>): (ts: seq<RR>)
    ensures |ts| == |tokens| && forall k :: 0 <= k < |tokens| ==> ts[k] == tokens[k].token
  {
    seq(|tokens|, k requires 0 <= k < |tokens| => tokens[k].token)
  }

  ghost function RecordFlags(records: seq<Record>): seq<bool>
    reads records
  {
    seq(|records|, i requires 0 <= i < |records| reads records => records[i].matched)
  }

  ghost function TokenMatchedFlags(tokens: seq<TokenContainer>): seq<bool>
    reads tokens
  {
    seq(|tokens|, k requires 0 <= k < |tokens| reads tokens => tokens[k].matched)
  }

  predicate AllWellFormed(toks: seq<RR>) {
    forall k :: 0 <= k < |toks| ==> WellFormed(toks[k])
  }

  /** The objects of a sequence are pairwise distinct. */
  predicate Distinct<T(==)>(s: seq<T>) {
    forall a, b :: 0 <= a < b < |s| ==> s[a] != s[b]
  }

  /** The token flags once the outer loop has handled the first `n` remote
      records, starting from `init`: a token ends up marked exactly when it
      was marked before or one of those records matches it. */
  function TokenFlags(z: ZoneName, recs: seq<DomainRecord>, toks: seq<RR>, init: seq<bool>, n: nat,
                      parseIP: string -> Option<Address>): (f: seq<bool>)
    requires |init| == |toks| && n <= |recs| && AllWellFormed(toks)
    ensures |f| == |toks|
    ensures forall k :: 0 <= k < |toks| ==>
              (f[k] <==> init[k] || exists i :: 0 <= i < n && Matches(z, recs[i], toks[k], parseIP))
    decreases n
  {
    if n == 0 then init
    else
      var prev := TokenFlags(z, recs, toks, init, n - 1, parseIP);
      seq(|toks|, k requires 0 <= k < |toks| => prev[k] || Matches(z, recs[n - 1], toks[k], parseIP))
  }

  /** Whether the remote record `r` finds a token that is still unmarked under
      `flags` and that it matches: the condition for the record to be marked. */
  predicate Claims(z: ZoneName, r: DomainRecord, toks: seq<RR>, flags: seq<bool>,
                   parseIP: string -> Option<Address>)
    requires |flags| == |toks| && AllWellFormed(toks)
  {
    exists k :: 0 <= k < |toks| && !flags[k] && Matches(z, r, toks[k], parseIP)
  }

  /** One turn of the outer loop: the remote record `rec` against every token
      in order. */
  method MatchRecord(z: ZoneName, rec: Record, tokens: seq<TokenContainer>,
                     parseIP: string -> Option<Address>)
    requires rec.zoneName == z
    requires Distinct(tokens)
    requires AllWellFormed(Desired(tokens))
    modifies rec, tokens
    ensures forall k :: 0 <= k < |tokens| ==>
              tokens[k].matched == (old(tokens[k].matched) || Matches(z, rec.record, tokens[k].token, parseIP))
    ensures rec.matched == (old(rec.matched) ||
              Claims(z, rec.record, Desired(tokens), old(TokenMatchedFlags(tokens)), parseIP))
  {
    ghost var toks, before := Desired(tokens), TokenMatchedFlags(tokens);
    for j := 0 to |tokens|
      invariant forall k :: 0 <= k < j ==>
                  tokens[k].matched == (before[k] || Matches(z, rec.record, toks[k], parseIP))
      invariant forall k :: j <= k < |tokens| ==> tokens[k].matched == before[k]
      invariant rec.matched == (old(rec.matched) ||
                  exists k :: 0 <= k < j && !before[k] && Matches(z, rec.record, toks[k], parseIP))
    {
      var token := tokens[j];
      if !token.matched && Matches(rec.zoneName, rec.record, token.token, parseIP) {
        rec.matched := true;
        token.matched := true;
      }
    }
  }

  /** The matching loop. Token flags end as `TokenFlags` says, and remote
      record `i` ends marked when it was already, or when it matches a token
      left unmarked by the records before it. */
  method MatchRecords(z: ZoneName, records: seq<Record>, tokens: seq<TokenContainer>,
                      parseIP: string -> Option<Address>)
    requires forall i :: 0 <= i < |records| ==> records[i].zoneName == z
    requires Distinct(records) && Distinct(tokens)
    requires AllWellFormed(Desired(tokens))
    modifies records, tokens
    ensures TokenMatchedFlags(tokens) ==
              TokenFlags(z, Remote(records), Desired(tokens), old(TokenMatchedFlags(tokens)), |records|, parseIP)
    ensures forall i :: 0 <= i < |records| ==>
              records[i].matched == (old(records[i].matched) ||
                Claims(z, records[i].record, Desired(tokens),
                       TokenFlags(z, Remote(records), Desired(tokens), old(TokenMatchedFlags(tokens)), i, parseIP),
                       parseIP))
  {
    ghost var recs, toks, init, initR := Remote(records), Desired(tokens), TokenMatchedFlags(tokens), RecordFlags(records);
    for i := 0 to |records|
      invariant TokenMatchedFlags(tokens) == TokenFlags(z, recs, toks, init, i, parseIP)
      invariant forall i' :: 0 <= i' < i ==>
                  records[i'].matched == (initR[i'] || ClaimedAt(z, recs, toks, init, i', parseIP))
      invariant forall i' :: i <= i' < |records| ==> records[i'].matched == initR[i']
    {
      MatchNext(z, records, tokens, i, recs, toks, init, initR, parseIP);
    }
  }

  /** The body of the matching loop: remote record `i` against every token. */
  method MatchNext(z: ZoneName, records: seq<Record>, tokens: seq<TokenContainer>, i: nat,
                   ghost recs: seq<DomainRecord>, ghost toks: seq<RR>, ghost init: seq<bool>,
                   ghost initR: seq<bool>, parseIP: string -> Option<Address>)
    requires i < |records| && records[i].zoneName == z
    requires Distinct(records) && Distinct(tokens)
    requires recs == Remote(records) && toks == Desired(tokens) && |init| == |toks| && |initR| == |records|
    requires AllWellFormed(toks)
    requires TokenMatchedFlags(tokens) == TokenFlags(z, recs, toks, init, i, parseIP)
    requires forall i' :: 0 <= i' < i ==>
               records[i'].matched == (initR[i'] || ClaimedAt(z, recs, toks, init, i', parseIP))
    requires forall i' :: i <= i' < |records| ==> records[i'].matched == initR[i']
    modifies records[i], tokens
    ensures TokenMatchedFlags(tokens) == TokenFlags(z, recs, toks, init, i + 1, parseIP)
    ensures forall i' :: 0 <= i' < i + 1 ==>
              records[i'].matched == (initR[i'] || ClaimedAt(z, recs, toks, init, i', parseIP))
    ensures forall i' :: i + 1 <= i' < |records| ==> records[i'].matched == initR[i']
  {
    ghost var recFlags, tokFlags := RecordFlags(records), TokenMatchedFlags(tokens);
    MatchRecord(z, records[i], tokens, parseIP);
    assert forall i' :: 0 <= i' < |records| && i' != i ==> records[i'].matched == recFlags[i'];
    TokenFlagsNext(z, recs, toks, init, i, tokFlags, TokenMatchedFlags(tokens), parseIP);
  }

  /** One turn of the outer loop advances `TokenFlags` by one record. */
  lemma TokenFlagsNext(z: ZoneName, recs: seq<DomainRecord>, toks: seq<RR>, init: seq<bool>, i: nat,
                       before: seq<bool>, after: seq<bool>, parseIP: string -> Option<Address>)
    requires |init| == |toks| && i < |recs| && AllWellFormed(toks)
    requires before == TokenFlags(z, recs, toks, init, i, parseIP)
    requires |after| == |toks|
    requires forall k :: 0 <= k < |toks| ==> after[k] == (before[k] || Matches(z, recs[i], toks[k], parseIP))
    ensures after == TokenFlags(z, recs, toks, init, i + 1, parseIP)
  {
  }

  /** Whether remote record `i` claims a token left unmarked by the records
      before it. */
  predicate ClaimedAt(z: ZoneName, recs: seq<DomainRecord>, toks: seq<RR>, init: seq<bool>, i: nat,
                      parseIP: string -> Option<Address>)
    requires |init| == |toks| && i < |recs| && AllWellFormed(toks)
  {
    Claims(z, recs[i], toks, TokenFlags(z, recs, toks, init, i, parseIP), parseIP)
  }

  /** No flag is set before the pass: the containers are fresh. */
  predicate NoneSet(flags: seq<bool>) {
    forall k :: 0 <= k < |flags| ==> !flags[k]
  }

  /** Flags only go from false to true as the outer loop advances. */
  lemma {:induction false} TokenFlagsMonotone(z: ZoneName, recs: seq<DomainRecord>, toks: seq<RR>, init: seq<bool>,
                                              m: nat, n: nat, k: nat, parseIP: string -> Option<Address>)
    requires |init| == |toks| && m <= n <= |recs| && AllWellFormed(toks) && k < |toks|
    requires TokenFlags(z, recs, toks, init, m, parseIP)[k]
    ensures TokenFlags(z, recs, toks, init, n, parseIP)[k]
  {
    if init[k] {
    } else {
      var i :| 0 <= i < m && Matches(z, recs[i], toks[k], parseIP);
      assert 0 <= i < n;
    }
  }

  /** A token is taken by a remote record exactly when that record is the first
      one, in iteration order, that matches it; so each token is taken by at
      most one record. */
  lemma ClaimedByFirstMatch(z: ZoneName, recs: seq<DomainRecord>, toks: seq<RR>, init: seq<bool>,
                            i: nat, k: nat, parseIP: string -> Option<Address>)
    requires |init| == |toks| && i < |recs| && AllWellFormed(toks) && k < |toks| && !init[k]
    ensures (!TokenFlags(z, recs, toks, init, i, parseIP)[k] && Matches(z, recs[i], toks[k], parseIP)) <==>
            (Matches(z, recs[i], toks[k], parseIP) && forall i' :: 0 <= i' < i ==> !Matches(z, recs[i'], toks[k], parseIP))
  {
  }

  /** Two different records never both take the same token. */
  lemma {:induction false} ClaimedOnce(z: ZoneName, recs: seq<DomainRecord>, toks: seq<RR>, init: seq<bool>,
                                       i1: nat, i2: nat, k: nat, parseIP: string -> Option<Address>)
    requires |init| == |toks| && i1 < i2 < |recs| && AllWellFormed(toks) && k < |toks|
    requires !TokenFlags(z, recs, toks, init, i1, parseIP)[k] && Matches(z, recs[i1], toks[k], parseIP)
    ensures TokenFlags(z, recs, toks, init, i2, parseIP)[k]
  {
    assert TokenFlags(z, recs, toks, init, i1 + 1, parseIP)[k];
    TokenFlagsMonotone(z, recs, toks, init, i1 + 1, i2, k, parseIP);
  }

  /** Which tokens end up marked does not depend on the order of the remote
      records. */
  lemma TokenFlagsOrderIndependent(z: ZoneName, recs1: seq<DomainRecord>, recs2: seq<DomainRecord>, toks: seq<RR>,
                                   init: seq<bool>, parseIP: string -> Option<Address>)
    requires |init| == |toks| && AllWellFormed(toks) && multiset(recs1) == multiset(recs2)
    ensures TokenFlags(z, recs1, toks, init, |recs1|, parseIP) == TokenFlags(z, recs2, toks, init, |recs2|, parseIP)
  {
    var f1 := TokenFlags(z, recs1, toks, init, |recs1|, parseIP);
    var f2 := TokenFlags(z, recs2, toks, init, |recs2|, parseIP);
    forall k | 0 <= k < |toks|
      ensures f1[k] == f2[k]
    {
      if i :| 0 <= i < |recs1| && Matches(z, recs1[i], toks[k], parseIP) {
        assert recs1[i] in multiset(recs2);
        var j :| 0 <= j < |recs2| && recs2[j] == recs1[i];
      }
      if j :| 0 <= j < |recs2| && Matches(z, recs2[j], toks[k], parseIP) {
        assert recs2[j] in multiset(recs1);
        var i :| 0 <= i < |recs1| && recs1[i] == recs2[j];
      }
    }
  }

  /** When no token is equivalent to two remote records, a remote record ends
      marked exactly when it matches some token, whatever the iteration order.
      Distinct records can still be equivalent under `Matches` (SRV records
      differing in weight only, address literals that parse alike). */
  lemma ClaimsWithoutDuplicates(z: ZoneName, recs: seq<DomainRecord>, toks: seq<RR>, init: seq<bool>,
                                i: nat, parseIP: string -> Option<Address>)
    requires |init| == |toks| && i < |recs| && AllWellFormed(toks) && NoneSet(init)
    requires forall i1, i2, k ::
               0 <= i1 < |recs| && 0 <= i2 < |recs| && 0 <= k < |toks| && i1 != i2 && Matches(z, recs[i1], toks[k], parseIP)
               ==> !Matches(z, recs[i2], toks[k], parseIP)
    ensures Claims(z, recs[i], toks, TokenFlags(z, recs, toks, init, i, parseIP), parseIP) <==>
            exists k :: 0 <= k < |toks| && Matches(z, recs[i], toks[k], parseIP)
  {
    var f := TokenFlags(z, recs, toks, init, i, parseIP);
    if k :| 0 <= k < |toks| && Matches(z, recs[i], toks[k], parseIP) {
      assert !f[k];
    }
  }
}
