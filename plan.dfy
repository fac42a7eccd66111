/** The diff and edit-inference passes of `main` (main.go:158-187) and the
    change count and confirmation that follow (main.go:199-228). */
module Plan {
  import opened ZoneNames
  import opened DnsTokens
  import opened Records
  import opened TokenContainers

  /** The expanded owner names of a set of remote records. */
  function Fqdns(z: ZoneName, recs: set<DomainRecord>): (names: set<string>) {
    set r | r in recs :: FQDN(z, r.name)
  }

  /** The owner names of the tokens queued for addition. */
  function Owners(queued: set<TokenContainer>): (names: set<string>) {
    set t | t in queued :: t.token.name
  }

  /** The `toDelete` loop: the values of the remote records left unmarked. The
      map is keyed by the record value, so it is a set here. */
  method CollectDeletes(records: seq<Record>) returns (toDelete: set<DomainRecord>)
    ensures toDelete == set i | 0 <= i < |records| && !records[i].matched :: records[i].record
  {
    toDelete := {};
    for n := 0 to |records|
      invariant toDelete == set i | 0 <= i < n && !records[i].matched :: records[i].record
    {
      var rec := records[n];
      if !rec.matched {
        toDelete := toDelete + {rec.record};
      }
    }
  }

  /** The `toAdd` loop: every unmarked token, keyed by its container, mapped to
      its provider request. */
  method CollectAdds(tokens: seq<TokenContainer>, showIP: Address -> string)
    returns (toAdd: map<TokenContainer, EditRequest>)
    requires forall k :: 0 <= k < |tokens| ==> Synced(tokens[k].token)
    ensures toAdd.Keys == set k | 0 <= k < |tokens| && !tokens[k].matched :: tokens[k]
    ensures forall t :: t in toAdd ==> toAdd[t] == CreateRequest(t.token, showIP)
  {
    toAdd := map[];
    for n := 0 to |tokens|
      invariant toAdd.Keys == set k | 0 <= k < n && !tokens[k].matched :: tokens[k]
      invariant forall t :: t in toAdd ==> toAdd[t] == CreateRequest(t.token, showIP)
    {
      var token := tokens[n];
      if !token.matched {
        toAdd := toAdd[token := CreateRequest(token.token, showIP)];
      }
    }
  }

  /** One turn of the edit-inference loop: every queued token whose request
      name is the remote record's expanded name is taken out of `toAdd`, and
      when there is one, the record leaves `toDelete` and is mapped to a
      request in `toEdit`. The scan does not stop at the first such token, so
      the request of the last one scanned is the one that stays. Type is not
      compared. */
  method InferEdit(z: ZoneName, rec: DomainRecord, toDelete: set<DomainRecord>,
                   toAdd: map<TokenContainer, EditRequest>, toEdit: map<DomainRecord, EditRequest>,
                   showIP: Address -> string)
    returns (del: set<DomainRecord>, add: map<TokenContainer, EditRequest>, edit: map<DomainRecord, EditRequest>)
    requires forall t :: t in toAdd ==> Synced(t.token)
    ensures add.Keys == set t | t in toAdd.Keys && t.token.name != FQDN(z, rec.name)
    ensures forall t :: t in add ==> add[t] == toAdd[t]
    ensures del == if FQDN(z, rec.name) in Owners(toAdd.Keys) then toDelete - {rec} else toDelete
    ensures edit.Keys == if FQDN(z, rec.name) in Owners(toAdd.Keys) then toEdit.Keys + {rec} else toEdit.Keys
    ensures forall r :: r in toEdit && r != rec ==> edit[r] == toEdit[r]
    ensures FQDN(z, rec.name) in Owners(toAdd.Keys) ==>
              exists t :: t in toAdd && t.token.name == FQDN(z, rec.name) && edit[rec] == CreateRequest(t.token, showIP)
    ensures FQDN(z, rec.name) !in Owners(toAdd.Keys) ==> edit == toEdit
  {
    del, add, edit := toDelete, toAdd, toEdit;
    var name := FQDN(z, rec.name);
    var pending := toAdd.Keys;
    assert toAdd.Keys - pending == {};
    while pending != {}
      invariant Scanned(z, rec, toDelete, toAdd, toEdit, pending, del, add, edit, showIP)
      decreases pending
    {
      var token :| token in pending;
      ghost var del0, add0, edit0 := del, add, edit;
      var req := CreateRequest(token.token, showIP);
      if req.name == name {
        edit := edit[rec := CreateRequest(token.token, showIP)];
        add := add - {token};
        del := del - {rec};
      }
      ScanStep(z, rec, toDelete, toAdd, toEdit, pending, token, del0, add0, edit0, del, add, edit, showIP);
      pending := pending - {token};
    }
    assert toAdd.Keys - pending == toAdd.Keys;
  }

  /** The state of the scan in `InferEdit` once the tokens outside `pending`
      have been compared with `rec`. */
  ghost predicate Scanned(z: ZoneName, rec: DomainRecord, toDelete: set<DomainRecord>,
                          toAdd: map<TokenContainer, EditRequest>, toEdit: map<DomainRecord, EditRequest>,
                          pending: set<TokenContainer>, del: set<DomainRecord>,
                          add: map<TokenContainer, EditRequest>, edit: map<DomainRecord, EditRequest>,
                          showIP: Address -> string)
    requires forall t :: t in toAdd ==> Synced(t.token)
  {
    && ScannedQueue(z, rec, toAdd, pending, add)
    && ScannedEdit(z, rec, toDelete, toAdd, toEdit, pending, del, edit, showIP)
  }

  /** The tokens compared so far whose name is the record's have left the
      queue; the others keep their requests. */
  ghost predicate ScannedQueue(z: ZoneName, rec: DomainRecord, toAdd: map<TokenContainer, EditRequest>,
                               pending: set<TokenContainer>, add: map<TokenContainer, EditRequest>)
  {
    && pending <= toAdd.Keys
    && add.Keys == (set t | t in toAdd.Keys && (t in pending || t.token.name != FQDN(z, rec.name)))
    && (forall t :: t in add ==> add[t] == toAdd[t])
  }

  /** Once a compared token has the record's name, the record has left the
      deletions and is edited with the request of such a token. */
  ghost predicate ScannedEdit(z: ZoneName, rec: DomainRecord, toDelete: set<DomainRecord>,
                              toAdd: map<TokenContainer, EditRequest>, toEdit: map<DomainRecord, EditRequest>,
                              pending: set<TokenContainer>, del: set<DomainRecord>,
                              edit: map<DomainRecord, EditRequest>, showIP: Address -> string)
    requires forall t :: t in toAdd ==> Synced(t.token)
  {
    var name := FQDN(z, rec.name);
    var found := name in Owners(toAdd.Keys - pending);
    && del == (if found then toDelete - {rec} else toDelete)
    && edit.Keys == (if found then toEdit.Keys + {rec} else toEdit.Keys)
    && (forall r :: r in toEdit && r != rec ==> edit[r] == toEdit[r])
    && (found ==> exists t :: t in toAdd && t.token.name == name && edit[rec] == CreateRequest(t.token, showIP))
    && (!found ==> edit == toEdit)
  }

  /** Comparing one more token keeps `Scanned`. */
  lemma ScanStep(z: ZoneName, rec: DomainRecord, toDelete: set<DomainRecord>,
                 toAdd: map<TokenContainer, EditRequest>, toEdit: map<DomainRecord, EditRequest>,
                 pending: set<TokenContainer>, token: TokenContainer,
                 del: set<DomainRecord>, add: map<TokenContainer, EditRequest>, edit: map<DomainRecord, EditRequest>,
                 del': set<DomainRecord>, add': map<TokenContainer, EditRequest>, edit': map<DomainRecord, EditRequest>,
                 showIP: Address -> string)
    requires forall t :: t in toAdd ==> Synced(t.token)
    requires Scanned(z, rec, toDelete, toAdd, toEdit, pending, del, add, edit, showIP)
    requires token in pending
    requires token.token.name == FQDN(z, rec.name) ==>
               del' == del - {rec} && add' == add - {token} && edit' == edit[rec := CreateRequest(token.token, showIP)]
    requires token.token.name != FQDN(z, rec.name) ==> del' == del && add' == add && edit' == edit
    ensures Scanned(z, rec, toDelete, toAdd, toEdit, pending - {token}, del', add', edit', showIP)
  {
    ScanQueueStep(z, rec, toAdd, pending, token, add, add');
    ScanEditStep(z, rec, toDelete, toAdd, toEdit, pending, token, del, edit, del', edit', showIP);
  }

  /** Comparing one more token keeps `ScannedQueue`. */
  lemma ScanQueueStep(z: ZoneName, rec: DomainRecord, toAdd: map<TokenContainer, EditRequest>,
                      pending: set<TokenContainer>, token: TokenContainer,
                      add: map<TokenContainer, EditRequest>, add': map<TokenContainer, EditRequest>)
    requires ScannedQueue(z, rec, toAdd, pending, add)
    requires token in pending
    requires add' == if token.token.name == FQDN(z, rec.name) then add - {token} else add
    ensures ScannedQueue(z, rec, toAdd, pending - {token}, add')
  {
  }

  /** Comparing one more token keeps `ScannedEdit`. */
  lemma ScanEditStep(z: ZoneName, rec: DomainRecord, toDelete: set<DomainRecord>,
                     toAdd: map<TokenContainer, EditRequest>, toEdit: map<DomainRecord, EditRequest>,
                     pending: set<TokenContainer>, token: TokenContainer,
                     del: set<DomainRecord>, edit: map<DomainRecord, EditRequest>,
                     del': set<DomainRecord>, edit': map<DomainRecord, EditRequest>,
                     showIP: Address -> string)
    requires forall t :: t in toAdd ==> Synced(t.token)
    requires ScannedEdit(z, rec, toDelete, toAdd, toEdit, pending, del, edit, showIP)
    requires token in pending && pending <= toAdd.Keys
    requires token.token.name == FQDN(z, rec.name) ==>
               del' == del - {rec} && edit' == edit[rec := CreateRequest(token.token, showIP)]
    requires token.token.name != FQDN(z, rec.name) ==> del' == del && edit' == edit
    ensures ScannedEdit(z, rec, toDelete, toAdd, toEdit, pending - {token}, del', edit', showIP)
  {
    assert toAdd.Keys - (pending - {token}) == (toAdd.Keys - pending) + {token};
    OwnersAdd(toAdd.Keys - pending, token);
  }

  /** A container's owner name joins the names of a set once it does. */
  lemma OwnersAdd(queued: set<TokenContainer>, t: TokenContainer)
    ensures Owners(queued + {t}) == Owners(queued) + {t.token.name}
  {
  }

  /** A record's expanded name belongs to the names of a set once it does. */
  lemma FqdnsAdd(z: ZoneName, recs: set<DomainRecord>, r: DomainRecord)
    ensures Fqdns(z, recs + {r}) == Fqdns(z, recs) + {FQDN(z, r.name)}
  {
  }

  /** Every edited record is mapped to the request of a queued token of its
      own expanded name. */
  ghost predicate EditsFromQueue(z: ZoneName, toAdd: map<TokenContainer, EditRequest>,
                                 edit: map<DomainRecord, EditRequest>, showIP: Address -> string)
    requires forall t :: t in toAdd ==> Synced(t.token)
  {
    forall r :: r in edit ==>
      exists t :: t in toAdd && t.token.name == FQDN(z, r.name) && edit[r] == CreateRequest(t.token, showIP)
  }

  /** No two edited records share an expanded name. */
  ghost predicate OnePerName(z: ZoneName, edited: set<DomainRecord>) {
    forall r1, r2 :: r1 in edited && r2 in edited && FQDN(z, r1.name) == FQDN(z, r2.name) ==> r1 == r2
  }

  /** The state of the edit-inference loop once the records of `done` have
      been handled, starting from `toDelete` and `toAdd`: the two queues, and
      the edits made. */
  ghost predicate Inferred(z: ZoneName, toDelete: set<DomainRecord>, toAdd: map<TokenContainer, EditRequest>,
                           done: set<DomainRecord>, del: set<DomainRecord>, add: map<TokenContainer, EditRequest>,
                           edit: map<DomainRecord, EditRequest>, showIP: Address -> string)
    requires forall t :: t in toAdd ==> Synced(t.token)
  {
    InferredQueues(z, toDelete, toAdd, done, del, add, edit.Keys) && InferredEdits(z, toAdd, done, edit, showIP)
  }

  /** The queues once `done` is handled: a record is still to be deleted
      unless it was edited, and a token is still to be added unless a handled
      record has its name. */
  ghost predicate InferredQueues(z: ZoneName, toDelete: set<DomainRecord>, toAdd: map<TokenContainer, EditRequest>,
                                 done: set<DomainRecord>, del: set<DomainRecord>, add: map<TokenContainer, EditRequest>,
                                 edited: set<DomainRecord>)
  {
    && done <= toDelete
    && edited <= done
    && del == toDelete - edited
    && add.Keys == (set t | t in toAdd.Keys && t.token.name !in Fqdns(z, done))
    && (forall t :: t in add ==> add[t] == toAdd[t])
  }

  /** The edits once `done` is handled: each from a queued token of its name,
      the names shared by `done` and the queue, one record per name. */
  ghost predicate InferredEdits(z: ZoneName, toAdd: map<TokenContainer, EditRequest>, done: set<DomainRecord>,
                                edit: map<DomainRecord, EditRequest>, showIP: Address -> string)
    requires forall t :: t in toAdd ==> Synced(t.token)
  {
    && EditsFromQueue(z, toAdd, edit, showIP)
    && Fqdns(z, edit.Keys) == Fqdns(z, done) * Owners(toAdd.Keys)
    && OnePerName(z, edit.Keys)
  }

  /** A name is still queued exactly when it was queued at the start and none
      of the handled records has it. */
  lemma QueuedNames(z: ZoneName, toAdd: map<TokenContainer, EditRequest>, done: set<DomainRecord>,
                    add: map<TokenContainer, EditRequest>, name: string)
    requires add.Keys == (set t | t in toAdd.Keys && t.token.name !in Fqdns(z, done))
    ensures name in Owners(add.Keys) <==> name in Owners(toAdd.Keys) && name !in Fqdns(z, done)
  {
    if name in Owners(add.Keys) {
      var t :| t in add.Keys && t.token.name == name;
      assert t in toAdd.Keys;
    }
    if name in Owners(toAdd.Keys) && name !in Fqdns(z, done) {
      var t :| t in toAdd.Keys && t.token.name == name;
      assert t in add.Keys;
    }
  }

  /** The queued tokens after one more record. */
  lemma StepQueue(z: ZoneName, toAdd: map<TokenContainer, EditRequest>, done: set<DomainRecord>, rec: DomainRecord,
                  add: map<TokenContainer, EditRequest>, add': map<TokenContainer, EditRequest>)
    requires add.Keys == (set t | t in toAdd.Keys && t.token.name !in Fqdns(z, done))
    requires add'.Keys == set t | t in add.Keys && t.token.name != FQDN(z, rec.name)
    ensures add'.Keys == (set t | t in toAdd.Keys && t.token.name !in Fqdns(z, done + {rec}))
  {
    FqdnsAdd(z, done, rec);
  }

  /** The edited names after one more record. */
  lemma StepNames(z: ZoneName, toAdd: map<TokenContainer, EditRequest>, done: set<DomainRecord>, rec: DomainRecord,
                  edit: set<DomainRecord>, edit': set<DomainRecord>, found: bool)
    requires Fqdns(z, edit) == Fqdns(z, done) * Owners(toAdd.Keys)
    requires found <==> FQDN(z, rec.name) in Owners(toAdd.Keys) && FQDN(z, rec.name) !in Fqdns(z, done)
    requires edit' == if found then edit + {rec} else edit
    ensures Fqdns(z, edit') == Fqdns(z, done + {rec}) * Owners(toAdd.Keys)
  {
    FqdnsAdd(z, done, rec);
    FqdnsAdd(z, edit, rec);
  }

  /** Edited records keep one per name after one more record. */
  lemma StepOnePerName(z: ZoneName, done: set<DomainRecord>, rec: DomainRecord,
                       edit: set<DomainRecord>, edit': set<DomainRecord>, found: bool)
    requires OnePerName(z, edit) && Fqdns(z, edit) <= Fqdns(z, done)
    requires found ==> FQDN(z, rec.name) !in Fqdns(z, done)
    requires edit' == if found then edit + {rec} else edit
    ensures OnePerName(z, edit')
  {
    if found {
      assert forall r :: r in edit ==> FQDN(z, r.name) in Fqdns(z, edit);
    }
  }

  /** Edited records keep their witnesses after one more record. */
  lemma StepEdits(z: ZoneName, toAdd: map<TokenContainer, EditRequest>, rec: DomainRecord,
                  add: map<TokenContainer, EditRequest>,
                  edit: map<DomainRecord, EditRequest>, edit': map<DomainRecord, EditRequest>,
                  showIP: Address -> string)
    requires forall t :: t in toAdd ==> Synced(t.token)
    requires add.Keys <= toAdd.Keys && forall t :: t in add ==> add[t] == toAdd[t]
    requires EditsFromQueue(z, toAdd, edit, showIP)
    requires edit'.Keys == if FQDN(z, rec.name) in Owners(add.Keys) then edit.Keys + {rec} else edit.Keys
    requires forall r :: r in edit && r != rec ==> edit'[r] == edit[r]
    requires rec !in edit
    requires FQDN(z, rec.name) in Owners(add.Keys) ==>
               exists t :: t in add && t.token.name == FQDN(z, rec.name) && edit'[rec] == CreateRequest(t.token, showIP)
    ensures EditsFromQueue(z, toAdd, edit', showIP)
  {
  }

  /** One turn of the outer loop keeps `Inferred`. */
  lemma InferredStep(z: ZoneName, toDelete: set<DomainRecord>, toAdd: map<TokenContainer, EditRequest>,
                     done: set<DomainRecord>, rec: DomainRecord,
                     del: set<DomainRecord>, add: map<TokenContainer, EditRequest>, edit: map<DomainRecord, EditRequest>,
                     del': set<DomainRecord>, add': map<TokenContainer, EditRequest>, edit': map<DomainRecord, EditRequest>,
                     showIP: Address -> string)
    requires forall t :: t in toAdd ==> Synced(t.token)
    requires Inferred(z, toDelete, toAdd, done, del, add, edit, showIP)
    requires rec in toDelete && rec !in done
    requires add'.Keys == set t | t in add.Keys && t.token.name != FQDN(z, rec.name)
    requires forall t :: t in add' ==> add'[t] == add[t]
    requires del' == if FQDN(z, rec.name) in Owners(add.Keys) then del - {rec} else del
    requires edit'.Keys == if FQDN(z, rec.name) in Owners(add.Keys) then edit.Keys + {rec} else edit.Keys
    requires forall r :: r in edit && r != rec ==> edit'[r] == edit[r]
    requires FQDN(z, rec.name) in Owners(add.Keys) ==>
               exists t :: t in add && t.token.name == FQDN(z, rec.name) && edit'[rec] == CreateRequest(t.token, showIP)
    ensures Inferred(z, toDelete, toAdd, done + {rec}, del', add', edit', showIP)
  {
    var found := FQDN(z, rec.name) in Owners(add.Keys);
    QueuesStep(z, toDelete, toAdd, done, rec, del, add, edit.Keys, del', add', edit'.Keys, found);
    EditsStep(z, toAdd, done, rec, add, edit, edit', showIP);
  }

  /** One turn of the outer loop keeps `InferredQueues`. */
  lemma QueuesStep(z: ZoneName, toDelete: set<DomainRecord>, toAdd: map<TokenContainer, EditRequest>,
                   done: set<DomainRecord>, rec: DomainRecord,
                   del: set<DomainRecord>, add: map<TokenContainer, EditRequest>, edited: set<DomainRecord>,
                   del': set<DomainRecord>, add': map<TokenContainer, EditRequest>, edited': set<DomainRecord>,
                   found: bool)
    requires InferredQueues(z, toDelete, toAdd, done, del, add, edited)
    requires rec in toDelete && rec !in done
    requires add'.Keys == set t | t in add.Keys && t.token.name != FQDN(z, rec.name)
    requires forall t :: t in add' ==> add'[t] == add[t]
    requires del' == if found then del - {rec} else del
    requires edited' == if found then edited + {rec} else edited
    ensures InferredQueues(z, toDelete, toAdd, done + {rec}, del', add', edited')
  {
    StepQueue(z, toAdd, done, rec, add, add');
  }

  /** One turn of the outer loop keeps `InferredEdits`. */
  lemma EditsStep(z: ZoneName, toAdd: map<TokenContainer, EditRequest>, done: set<DomainRecord>, rec: DomainRecord,
                  add: map<TokenContainer, EditRequest>, edit: map<DomainRecord, EditRequest>,
                  edit': map<DomainRecord, EditRequest>, showIP: Address -> string)
    requires forall t :: t in toAdd ==> Synced(t.token)
    requires InferredEdits(z, toAdd, done, edit, showIP)
    requires edit.Keys <= done && rec !in done
    requires add.Keys == (set t | t in toAdd.Keys && t.token.name !in Fqdns(z, done))
    requires forall t :: t in add ==> add[t] == toAdd[t]
    requires edit'.Keys == if FQDN(z, rec.name) in Owners(add.Keys) then edit.Keys + {rec} else edit.Keys
    requires forall r :: r in edit && r != rec ==> edit'[r] == edit[r]
    requires FQDN(z, rec.name) in Owners(add.Keys) ==>
               exists t :: t in add && t.token.name == FQDN(z, rec.name) && edit'[rec] == CreateRequest(t.token, showIP)
    ensures InferredEdits(z, toAdd, done + {rec}, edit', showIP)
  {
    var name := FQDN(z, rec.name);
    var found := name in Owners(add.Keys);
    QueuedNames(z, toAdd, done, add, name);
    assert Fqdns(z, edit.Keys) <= Fqdns(z, done);
    StepNames(z, toAdd, done, rec, edit.Keys, edit'.Keys, found);
    StepOnePerName(z, done, rec, edit.Keys, edit'.Keys, found);
    StepEdits(z, toAdd, rec, add, edit, edit', showIP);
  }

  /** The edit-inference loop (main.go:174-187), over the records of
      `toDelete` in any order (Go leaves map order unspecified). Whatever the
      order: a queued token survives exactly when no record to delete shares
      its owner name; each edited record was to be deleted, is no longer, and
      is mapped to the request of a token of its own name (of any type); the
      edited records' names are exactly the names found on both sides, one
      record per name. */
  method InferEdits(z: ZoneName, toDelete: set<DomainRecord>, toAdd: map<TokenContainer, EditRequest>,
                    showIP: Address -> string)
    returns (del: set<DomainRecord>, add: map<TokenContainer, EditRequest>, edit: map<DomainRecord, EditRequest>)
    requires forall t :: t in toAdd ==> Synced(t.token)
    ensures edit.Keys <= toDelete
    ensures del == toDelete - edit.Keys
    ensures add.Keys == set t | t in toAdd.Keys && t.token.name !in Fqdns(z, toDelete)
    ensures forall t :: t in add ==> add[t] == toAdd[t]
    ensures forall r :: r in edit ==>
              exists t :: t in toAdd && t.token.name == FQDN(z, r.name) && edit[r] == CreateRequest(t.token, showIP)
    ensures Fqdns(z, edit.Keys) == Fqdns(z, toDelete) * Owners(toAdd.Keys)
    ensures OnePerName(z, edit.Keys)
  {
    del, add, edit := toDelete, toAdd, map[];
    var pending := toDelete;
    while pending != {}
      invariant pending <= toDelete
      invariant Inferred(z, toDelete, toAdd, toDelete - pending, del, add, edit, showIP)
      decreases pending
    {
      var rec :| rec in pending;
      ghost var done, del0, add0, edit0 := toDelete - pending, del, add, edit;
      del, add, edit := InferEdit(z, rec, del, add, edit, showIP);
      InferredStep(z, toDelete, toAdd, done, rec, del0, add0, edit0, del, add, edit, showIP);
      pending := pending - {rec};
      assert toDelete - pending == done + {rec};
    }
    assert toDelete - pending == toDelete;
  }

  /** After edit inference no record left to delete shares its expanded name
      with a token left to add, and every token taken out of `toAdd` has the
      name of an edited record, whether or not its own request is the one kept
      for that record. */
  lemma {:induction false} InferredPlanSeparated(z: ZoneName, toDelete: set<DomainRecord>,
                                                 toAdd: map<TokenContainer, EditRequest>,
                                                 del: set<DomainRecord>, add: map<TokenContainer, EditRequest>,
                                                 edit: map<DomainRecord, EditRequest>)
    requires edit.Keys <= toDelete && del == toDelete - edit.Keys
    requires add.Keys == set t | t in toAdd.Keys && t.token.name !in Fqdns(z, toDelete)
    requires Fqdns(z, edit.Keys) == Fqdns(z, toDelete) * Owners(toAdd.Keys)
    ensures Fqdns(z, del) * Owners(add.Keys) == {}
    ensures forall t :: t in toAdd && t !in add ==> t.token.name in Fqdns(z, edit.Keys)
  {
    forall n | n in Fqdns(z, del)
      ensures n !in Owners(add.Keys)
    {
      var r :| r in del && FQDN(z, r.name) == n;
      assert n in Fqdns(z, toDelete);
    }
    forall t | t in toAdd && t !in add
      ensures t.token.name in Fqdns(z, edit.Keys)
    {
      assert t.token.name in Owners(toAdd.Keys);
    }
  }

  /** `numChanges`: the number of provider calls the plan makes. */
  function NumChanges(toDelete: set<DomainRecord>, toAdd: map<TokenContainer, EditRequest>,
                      toEdit: map<DomainRecord, EditRequest>): (calls: nat)
  {
    |toDelete| + |toAdd| + |toEdit|
  }

  /** There are no more names than tokens. */
  lemma {:induction false} OwnersSize(ts: set<TokenContainer>)
    ensures |Owners(ts)| <= |ts|
    decreases ts
  {
    if ts != {} {
      var t :| t in ts;
      OwnersSize(ts - {t});
      assert Owners(ts) == Owners(ts - {t}) + {t.token.name};
    }
  }

  /** Records with pairwise different expanded names have as many names. */
  lemma {:induction false} FqdnsSize(z: ZoneName, recs: set<DomainRecord>)
    requires OnePerName(z, recs)
    ensures |Fqdns(z, recs)| == |recs|
    decreases recs
  {
    if recs != {} {
      var r :| r in recs;
      var rest := recs - {r};
      FqdnsSize(z, rest);
      FqdnsAdd(z, rest, r);
      assert recs == rest + {r};
      assert FQDN(z, r.name) !in Fqdns(z, rest);
    }
  }

  /** Removing a subset takes exactly its size away. */
  lemma DifferenceSize<T>(a: set<T>, b: set<T>)
    requires b <= a
    ensures |a - b| == |a| - |b|
  {
    assert a == (a - b) + b && (a - b) !! b;
  }

  /** Each edited name is the name of a token taken out of `toAdd`. */
  lemma EditedNamesRemoved(z: ZoneName, toDelete: set<DomainRecord>, toAdd: map<TokenContainer, EditRequest>,
                           add: map<TokenContainer, EditRequest>, edit: map<DomainRecord, EditRequest>)
    requires add.Keys == set t | t in toAdd.Keys && t.token.name !in Fqdns(z, toDelete)
    requires Fqdns(z, edit.Keys) == Fqdns(z, toDelete) * Owners(toAdd.Keys)
    ensures Fqdns(z, edit.Keys) <= Owners(toAdd.Keys - add.Keys)
  {
    forall n | n in Fqdns(z, edit.Keys)
      ensures n in Owners(toAdd.Keys - add.Keys)
    {
      var t :| t in toAdd.Keys && t.token.name == n;
      assert t in toAdd.Keys - add.Keys;
    }
  }

  /** Edit inference saves calls: each edit replaces one deletion and at least
      one addition, so the plan makes at most as many calls as deleting and
      adding every unmatched record would, less one per edit. */
  lemma EditsSaveCalls(z: ZoneName, toDelete: set<DomainRecord>, toAdd: map<TokenContainer, EditRequest>,
                       del: set<DomainRecord>, add: map<TokenContainer, EditRequest>,
                       edit: map<DomainRecord, EditRequest>)
    requires edit.Keys <= toDelete && del == toDelete - edit.Keys
    requires add.Keys == set t | t in toAdd.Keys && t.token.name !in Fqdns(z, toDelete)
    requires Fqdns(z, edit.Keys) == Fqdns(z, toDelete) * Owners(toAdd.Keys)
    requires OnePerName(z, edit.Keys)
    ensures NumChanges(del, add, edit) + |edit| <= |toDelete| + |toAdd|
  {
    var removed := toAdd.Keys - add.Keys;
    FqdnsSize(z, edit.Keys);
    OwnersSize(removed);
    EditedNamesRemoved(z, toDelete, toAdd, add, edit);
    DifferenceSize(Owners(removed), Fqdns(z, edit.Keys));
    DifferenceSize(toDelete, edit.Keys);
    DifferenceSize(toAdd.Keys, removed);
    assert add.Keys == toAdd.Keys - removed;
  }

  /** The prompt's decision (main.go:189-232): the plan is applied without a
      question when `-yes` was given or there is nothing to do, and otherwise
      only on the answer "y" or "Y". */
  function Proceeds(yes: bool, numChanges: nat, line: string): (go: bool) {
    if yes then true
    else if numChanges > 0 then line == "y" || line == "Y"
    else true
  }

  /** Asked, only the exact one-letter answers "y" and "Y" go ahead: "yes",
      " y", "n" and the empty line all abort. */
  lemma OnlyYesProceeds(numChanges: nat, line: string)
    requires numChanges > 0
    ensures Proceeds(false, numChanges, line) <==> line in {"y", "Y"}
    ensures !Proceeds(false, numChanges, "yes") && !Proceeds(false, numChanges, " y")
    ensures !Proceeds(false, numChanges, "n") && !Proceeds(false, numChanges, "")
  {
  }
}
