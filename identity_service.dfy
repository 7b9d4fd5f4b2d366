// services/identity.service.go: user identities in the document store.
module IdentityService {
  import opened Wrappers
  import opened Numeric
  import opened Models
  import opened Store
  import Common
  import Query
  import GoStrings
  import WalletService

  const Prefix: string := "user"

  const StatusActive: string := "active"
  const StatusDisabled: string := "disabled"

  const ErrNoUser: string := "error: no user found"
  const ErrNoIdentity: string := "error: no identity found"

  const FilterBase: string := "select data.* from `testbucket`.`_default`.`_default` data where type='user' "

  function Key(identityId: string): (key: string)
  {
    Prefix + "/" + identityId
  }

  /** The stored form of a username: trimmed, then HTML-escaped. */
  function CanonicalUsername(username: string): (r: string)
    ensures GoStrings.UnescapeString(r) == GoStrings.TrimSpace(username)
  {
    GoStrings.UnescapeEscape(GoStrings.TrimSpace(username));
    GoStrings.EscapeString(GoStrings.TrimSpace(username))
  }

  datatype CreateResult = CreateResult(identity: Identity, identifier: string, err: Option<string>, docs: Docs)

  /**
   * Create: document type, identifier and canonical username first; a failed
   * hash ends it with no identifier and no write; otherwise the hashed
   * password, the channel, the two defaults, active status, the timestamps
   * and one insert under "user/<identifier>".
   */
  function CreateOutcome(docs: Docs, identity: Identity, random: seq<byte>,
                         hash: Result<string, string>, now: Time): (o: CreateResult)
    requires |random| == 30
    ensures o.identity.docType == "user" && Common.IsIdentifier(o.identity.identifier, 30)
    ensures o.identity.username == CanonicalUsername(identity.username)
    ensures hash.Err? ==> o.identifier == "" && o.err == Some(hash.error) && o.docs == docs
    ensures hash.Ok? ==>
      && o.identity.password == hash.value
      && o.identity.channel == "loyyalchannel"
      && o.identity.identityType == (if identity.identityType == "" then "consumer" else identity.identityType)
      && o.identity.creator == (if identity.creator == "" then "admin" else identity.creator)
      && o.identity.status == StatusActive
      && o.identity.createdAt == o.identity.lastUpdatedAt == now
      && o.identity.lastUpdatedBy == o.identity.creator
      && o.identity.personalDetails == identity.personalDetails
      && o.identifier == o.identity.identifier
      && (o.err.None? <==> Key(o.identifier) !in docs)
    ensures o.docs == if o.err.None? then docs[Key(o.identifier) := UserDoc(o.identity)] else docs
  {
    var i := identity.(docType := "user", identifier := Common.IdentifierOf(random),
                       username := CanonicalUsername(identity.username));
    match hash
    case Err(e) => CreateResult(i, "", Some(e), docs)
    case Ok(h) =>
      var stamped := i.(password := h, channel := "loyyalchannel",
                        identityType := if i.identityType == "" then "consumer" else i.identityType,
                        creator := if i.creator == "" then "admin" else i.creator,
                        status := WalletService.Active, createdAt := now, lastUpdatedAt := now);
      var full := stamped.(lastUpdatedBy := stamped.creator);
      var written := InsertInto(docs, Key(full.identifier), UserDoc(full));
      CreateResult(full, full.identifier, written.err, written.docs)
  }

  method Create(col: Collection, identity: Identity, random: seq<byte>, hash: Result<string, string>, now: Time)
    returns (created: Identity, identifier: string, err: Option<string>)
    requires |random| == 30
    modifies col
    ensures CreateResult(created, identifier, err, col.docs) == CreateOutcome(old(col.docs), identity, random, hash, now)
  {
    created := identity;
    created := created.(docType := "user");
    var id := Common.GenerateIdentifier(30, random);
    created := created.(identifier := id);
    created := created.(username := GoStrings.EscapeString(GoStrings.TrimSpace(created.username)));
    if hash.Err? {
      return created, "", Some(hash.error);
    }
    created := created.(password := hash.value);
    created := created.(channel := "loyyalchannel");
    if created.identityType == "" {
      created := created.(identityType := "consumer");
    }
    if created.creator == "" {
      created := created.(creator := "admin");
    }
    created := created.(status := WalletService.Active);
    created := created.(createdAt := now, lastUpdatedAt := now);
    created := created.(lastUpdatedBy := created.creator);
    err := col.Insert(Key(created.identifier), UserDoc(created));
    identifier := created.identifier;
  }

  /** Get: the stored identity with its password blanked. */
  function Get(docs: Docs, identityId: string): (r: Result<Identity, string>)
    ensures r.Ok? ==> r.value.password == ""
    ensures r.Err? <==> Key(identityId) !in docs
    ensures r.Err? ==> r.error == ErrNoUser
    ensures r.Ok? ==> r.value.(password := AsIdentity(docs[Key(identityId)]).password) == AsIdentity(docs[Key(identityId)])
  {
    if Key(identityId) in docs then Ok(AsIdentity(docs[Key(identityId)]).(password := ""))
    else Err(ErrNoUser)
  }

  /** A created identity reads back whole, except for the password hash. */
  lemma CreateThenGet(docs: Docs, identity: Identity, random: seq<byte>, hash: Result<string, string>, now: Time)
    requires |random| == 30
    ensures var o := CreateOutcome(docs, identity, random, hash, now);
      o.err.None? ==> Get(o.docs, o.identifier) == Ok(o.identity.(password := ""))
  {
  }

  function UpdateOutcome(docs: Docs, identityId: string, personalDetails: PersonalDetails, now: Time): (o: Written)
    ensures Key(identityId) !in docs ==> o == Written(Some(ErrNoUser), docs)
    ensures Key(identityId) in docs ==> o.err.None? && o.docs.Keys == docs.Keys
    ensures Key(identityId) in docs ==>
      var before := AsIdentity(docs[Key(identityId)]);
      o.docs == docs[Key(identityId) := UserDoc(before.(personalDetails := personalDetails, lastUpdatedAt := now, lastUpdatedBy := "admin"))]
  {
    if Key(identityId) !in docs then Written(Some(ErrNoUser), docs)
    else
      var i := AsIdentity(docs[Key(identityId)]);
      ReplaceIn(docs, Key(identityId), UserDoc(i.(personalDetails := personalDetails, lastUpdatedAt := now, lastUpdatedBy := "admin")))
  }

  method Update(col: Collection, identityId: string, personalDetails: PersonalDetails, now: Time)
    returns (err: Option<string>)
    modifies col
    ensures Written(err, col.docs) == UpdateOutcome(old(col.docs), identityId, personalDetails, now)
  {
    var doc := col.Get(Key(identityId));
    if doc.None? {
      return Some(ErrNoUser);
    }
    var identity := AsIdentity(doc.value);
    identity := identity.(personalDetails := personalDetails);
    identity := identity.(lastUpdatedAt := now);
    identity := identity.(lastUpdatedBy := "admin");
    err := col.Replace(Key(identityId), UserDoc(identity));
  }

  function DeleteOutcome(docs: Docs, identityId: string, sessionedUser: string, now: Time): (o: Written)
    ensures Key(identityId) !in docs ==> o == Written(Some(ErrNoIdentity), docs)
    ensures Key(identityId) in docs ==> o.err.None? && o.docs.Keys == docs.Keys
    ensures Key(identityId) in docs ==>
      var before := AsIdentity(docs[Key(identityId)]);
      o.docs == docs[Key(identityId) := UserDoc(before.(isDeleted := true, lastUpdatedAt := now, lastUpdatedBy := sessionedUser))]
  {
    if Key(identityId) !in docs then Written(Some(ErrNoIdentity), docs)
    else
      var i := AsIdentity(docs[Key(identityId)]);
      ReplaceIn(docs, Key(identityId), UserDoc(i.(isDeleted := true, lastUpdatedAt := now, lastUpdatedBy := sessionedUser)))
  }

  method Delete(col: Collection, identityId: string, sessionedUser: string, now: Time)
    returns (err: Option<string>)
    modifies col
    ensures Written(err, col.docs) == DeleteOutcome(old(col.docs), identityId, sessionedUser, now)
  {
    var doc := col.Get(Key(identityId));
    if doc.None? {
      return Some(ErrNoIdentity);
    }
    var identity := AsIdentity(doc.value);
    identity := identity.(isDeleted := true);
    identity := identity.(lastUpdatedAt := now);
    identity := identity.(lastUpdatedBy := sessionedUser);
    err := col.Replace(Key(identityId), UserDoc(identity));
  }

  /** A soft-deleted identity is still readable, with its flag set. */
  lemma GetAfterDelete(docs: Docs, identityId: string, sessionedUser: string, now: Time)
    requires Key(identityId) in docs
    ensures var o := DeleteOutcome(docs, identityId, sessionedUser, now);
      Get(o.docs, identityId).Ok? && Get(o.docs, identityId).value.isDeleted
  {
  }

  method Filter(queryString: string, sortBy: string, limit: Int64) returns (query: string)
    ensures GoStrings.HasPrefix(query, Query.Head(FilterBase, queryString, sortBy))
    ensures query == Query.Head(FilterBase, queryString, sortBy) <==> limit == -1
    ensures Query.LimitOf(query, Query.Head(FilterBase, queryString, sortBy)) == Some(if limit == -1 then None else Some(limit))
  {
    query := Query.Build(FilterBase, queryString, sortBy, limit);
  }

  /** parseIdentityRows: every row comes back in order with its password blanked. */
  method ParseIdentityRows(rows: seq<Identity>) returns (identities: seq<Identity>)
    ensures |identities| == |rows|
    ensures forall k :: 0 <= k < |rows| ==> identities[k].password == ""
    ensures forall k :: 0 <= k < |rows| ==> identities[k].(password := rows[k].password) == rows[k]
  {
    identities := [];
    var n := 0;
    while n < |rows|
      invariant 0 <= n <= |rows|
      invariant |identities| == n
      invariant forall k :: 0 <= k < n ==> identities[k] == rows[k].(password := "")
    {
      var obj := rows[n];
      obj := obj.(password := "");
      identities := identities + [obj];
      n := n + 1;
    }
  }

  /** The record under k is an admin with that exact username. */
  predicate AdminAt(docs: Docs, k: string, username: string)
  {
    k in docs && docs[k].UserDoc? && docs[k].identity.identityType == "admin" && docs[k].identity.username == username
  }

  /** An admin with that exact username is on record. */
  predicate AdminNamed(docs: Docs, username: string)
  {
    exists k :: k in docs && AdminAt(docs, k, username)
  }

  /**
   * The row filter of the bootstrap's admin query. As written it tests the
   * JSON field "type", which identity records do not have, and the username
   * as passed in; corrected, it tests "docType", which Create sets, and the
   * username in the form Create stores it.
   */
  datatype AdminQuery = AsWrittenQuery | CorrectedQuery

  /**
   * As written: `type='user' and username=$username and identityType='admin'`.
   * Only identity records have the username and identityType fields.
   */
  predicate AdminRowAsWritten(d: Doc, username: string)
  {
    && d.UserDoc? && d.identity.identityType == "admin"
    && TypeField(d) == Some("user") && d.identity.username == username
  }

  /** Corrected: the identity's own docType, and the username as Create stores it. */
  predicate AdminRowCorrected(d: Doc, username: string)
  {
    && d.UserDoc? && d.identity.identityType == "admin"
    && d.identity.docType == "user" && d.identity.username == CanonicalUsername(username)
  }

  predicate AdminRow(d: Doc, username: string, q: AdminQuery)
  {
    if q == AsWrittenQuery then AdminRowAsWritten(d, username) else AdminRowCorrected(d, username)
  }

  /** found is what the query returns on docs: every matching record, its password blanked, and nothing else. */
  predicate QueryResult(docs: Docs, username: string, q: AdminQuery, found: seq<Identity>)
  {
    && (forall k :: k in docs && AdminRow(docs[k], username, q) ==> docs[k].identity.(password := "") in found)
    && (forall i :: i in found ==> exists k :: k in docs && AdminRow(docs[k], username, q) && docs[k].identity.(password := "") == i)
  }

  /** As written, the admin query returns no row whatever the collection holds. */
  lemma AsWrittenQueryFindsNothing(docs: Docs, username: string, found: seq<Identity>)
    requires QueryResult(docs, username, AsWrittenQuery, found)
    ensures found == []
  {
    assert forall i :: i in found ==> false;
    HeadIsMember(found);
  }

  lemma HeadIsMember(s: seq<Identity>)
    ensures |s| > 0 ==> s[0] in s
  {
  }

  /**
   * CreateBootstrapIdentity, given what the admin query returned: rows mean
   * an admin exists and nothing is written; a failed query is ignored.
   */
  function BootstrapOutcome(docs: Docs, username: string, password: string,
                            existingAdmin: Result<seq<Identity>, string>,
                            random: seq<byte>, hash: Result<string, string>, now: Time): (o: Written)
    requires |random| == 30
    ensures existingAdmin.Ok? && |existingAdmin.value| > 0 ==> o == Written(None, docs)
  {
    if existingAdmin.Ok? && |existingAdmin.value| > 0 then Written(None, docs)
    else
      var identity := ZeroIdentity.(username := username, password := password, identityType := "admin");
      var c := CreateOutcome(docs, identity, random, hash, now);
      Written(c.err, c.docs)
  }

  method CreateBootstrapIdentity(col: Collection, username: string, password: string,
                                 existingAdmin: Result<seq<Identity>, string>,
                                 random: seq<byte>, hash: Result<string, string>, now: Time)
    returns (err: Option<string>)
    requires |random| == 30
    modifies col
    ensures Written(err, col.docs) == BootstrapOutcome(old(col.docs), username, password, existingAdmin, random, hash, now)
  {
    if existingAdmin.Ok? && |existingAdmin.value| > 0 {
      return None;
    }
    var identity := ZeroIdentity;
    identity := identity.(username := username);
    identity := identity.(password := password);
    identity := identity.(identityType := "admin");
    var _, _, e := Create(col, identity, random, hash, now);
    err := e;
  }

  /**
   * A bootstrap that finds no admin and writes adds exactly one record: an
   * admin of document type "user" under the canonical name, at a key that
   * was free; every earlier record is kept.
   */
  lemma BootstrapCreatesAdmin(docs: Docs, username: string, password: string, random: seq<byte>,
                              hash: Result<string, string>, now: Time)
    requires |random| == 30
    ensures var o := BootstrapOutcome(docs, username, password, Ok([]), random, hash, now);
      var k := Key(Common.IdentifierOf(random));
      o.err.None? ==> && k !in docs && o.docs.Keys == docs.Keys + {k}
                      && AdminAt(o.docs, k, CanonicalUsername(username)) && o.docs[k].identity.docType == "user"
                      && (forall j :: j in docs ==> o.docs[j] == docs[j])
  {
    var identity := ZeroIdentity.(username := username, password := password, identityType := "admin");
    var c := CreateOutcome(docs, identity, random, hash, now);
    if c.err.None? {
      assert hash.Ok?;
      assert c.identity.identityType == "admin";
      assert c.identifier == c.identity.identifier == Common.IdentifierOf(random);
      var k := Key(c.identifier);
      assert c.docs == docs[k := UserDoc(c.identity)];
      assert k in c.docs && c.docs[k].UserDoc? && c.docs[k].identity == c.identity;
    }
  }

  /**
   * As written, bootstrapping twice stores two admins: the admin query finds
   * neither the first run's admin nor any other, so the second run inserts
   * again whenever its fresh key is free.
   */
  lemma BootstrapTwiceAddsSecondAdmin(docs: Docs, username: string, password: string,
                                      found1: seq<Identity>, found2: seq<Identity>,
                                      random1: seq<byte>, random2: seq<byte>, hash: Result<string, string>, now: Time)
    requires |random1| == 30 && |random2| == 30
    requires QueryResult(docs, username, AsWrittenQuery, found1)
    requires var first := BootstrapOutcome(docs, username, password, Ok(found1), random1, hash, now);
      QueryResult(first.docs, username, AsWrittenQuery, found2)
    ensures var first := BootstrapOutcome(docs, username, password, Ok(found1), random1, hash, now);
      var second := BootstrapOutcome(first.docs, username, password, Ok(found2), random2, hash, now);
      var k1, k2 := Key(Common.IdentifierOf(random1)), Key(Common.IdentifierOf(random2));
      first.err.None? && k2 !in first.docs ==>
        && second.err.None? && k1 != k2
        && AdminAt(second.docs, k1, CanonicalUsername(username))
        && AdminAt(second.docs, k2, CanonicalUsername(username))
  {
    AsWrittenQueryFindsNothing(docs, username, found1);
    var first := BootstrapOutcome(docs, username, password, Ok(found1), random1, hash, now);
    AsWrittenQueryFindsNothing(first.docs, username, found2);
    BootstrapCreatesAdmin(docs, username, password, random1, hash, now);
    BootstrapCreatesAdmin(first.docs, username, password, random2, hash, now);
  }

  /**
   * With the corrected query, bootstrapping twice writes at most once: after
   * a first run that wrote or found an admin, the second run finds one and
   * leaves the collection alone.
   */
  lemma BootstrapIdempotent(docs: Docs, username: string, password: string,
                            found1: seq<Identity>, found2: seq<Identity>,
                            random1: seq<byte>, random2: seq<byte>, hash: Result<string, string>, now: Time)
    requires |random1| == 30 && |random2| == 30
    requires QueryResult(docs, username, CorrectedQuery, found1)
    requires var first := BootstrapOutcome(docs, username, password, Ok(found1), random1, hash, now);
      QueryResult(first.docs, username, CorrectedQuery, found2)
    ensures var first := BootstrapOutcome(docs, username, password, Ok(found1), random1, hash, now);
      first.err.None? ==> BootstrapOutcome(first.docs, username, password, Ok(found2), random2, hash, now) == Written(None, first.docs)
  {
    var first := BootstrapOutcome(docs, username, password, Ok(found1), random1, hash, now);
    if first.err.None? {
      var k: string;
      if |found1| > 0 {
        assert found1[0] in found1;
        k :| k in docs && AdminRow(docs[k], username, CorrectedQuery) && docs[k].identity.(password := "") == found1[0];
        assert first.docs == docs;
      } else {
        BootstrapCreatesAdmin(docs, username, password, random1, hash, now);
        k := Key(Common.IdentifierOf(random1));
      }
      assert AdminRow(first.docs[k], username, CorrectedQuery);
      assert first.docs[k].identity.(password := "") in found2;
    }
  }

  /**
   * A name that is not in stored form is stored changed, so after the
   * bootstrap an admin looked up by the name as given is still not there.
   */
  lemma BootstrapStoresTrimmedName(docs: Docs, username: string, password: string, random: seq<byte>,
                                   hash: Result<string, string>, now: Time)
    requires |random| == 30
    requires CanonicalUsername(username) != username && !AdminNamed(docs, username)
    ensures var o := BootstrapOutcome(docs, username, password, Ok([]), random, hash, now);
      o.err.None? ==> AdminNamed(o.docs, CanonicalUsername(username)) && !AdminNamed(o.docs, username)
  {
    var o := BootstrapOutcome(docs, username, password, Ok([]), random, hash, now);
    BootstrapCreatesAdmin(docs, username, password, random, hash, now);
    if o.err.None? {
      var k := Key(Common.IdentifierOf(random));
      assert AdminAt(o.docs, k, CanonicalUsername(username));
      AddedAdminIsNotNamed(docs, o.docs, k, CanonicalUsername(username), username);
    }
  }

  /** Adding one admin under another name leaves a name without an admin still without one. */
  lemma AddedAdminIsNotNamed(docs: Docs, after: Docs, k: string, stored: string, username: string)
    requires stored != username && !AdminNamed(docs, username)
    requires after.Keys == docs.Keys + {k} && AdminAt(after, k, stored)
    requires forall j :: j in docs ==> after[j] == docs[j]
    ensures !AdminNamed(after, username)
  {
    forall j | j in after
      ensures !AdminAt(after, j, username)
    {
      if j != k {
        assert !AdminAt(docs, j, username);
      }
    }
  }

  /** " root" is such a name: it is stored as "root". */
  lemma PaddedNameIsTrimmed()
    ensures CanonicalUsername(" root") == "root"
  {
    RootTrimmed();
    GoStrings.EscapePlain("root");
  }

  lemma RootTrimmed()
    ensures GoStrings.TrimSpace(" root") == "root"
  {
    assert GoStrings.IsSpace(' ');
    assert GoStrings.TrimLeft(" root") == "root";
  }
}
