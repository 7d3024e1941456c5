/** The relational schema declared for the relying-party tables, as two
    in-memory tables whose insert and delete operations enforce it:

    - RelyingParties: key Id (generated on insert); Realm required, at most
      200 characters, and unique.
    - RelyingPartyClaimMappings: key Id (generated on insert); NewClaimType and
      OriginalClaimType required and at most 250 characters each; a required
      reference to its relying party, deleted with it (cascade). */
module Schema {
  import opened Common
  import E = Entities

  const RealmMaxLength := 200
  const ClaimTypeMaxLength := 250

  /** Why the storage refuses a change. */
  datatype ConstraintViolation =
    | RealmRequired
    | RealmTooLong
    | DuplicateRealm
    | ClaimTypeRequired
    | ClaimTypeTooLong
    | MissingParent
    | RowNotFound

  // ---------------------------------------------------------------------------
  // Column constraints
  // ---------------------------------------------------------------------------

  /** A required string column of bounded length. */
  predicate RequiredWithin(value: Option<string>, maxLength: nat)
  {
    value.Some? && |value.value| <= maxLength
  }

  /** The violation a required, length-bounded column commits, if any. */
  function ColumnViolation(value: Option<string>, maxLength: nat, missing: ConstraintViolation,
                           tooLong: ConstraintViolation): (r: Option<ConstraintViolation>)
    ensures r.None? <==> RequiredWithin(value, maxLength)
    ensures value.None? ==> r == Some(missing)
    ensures value.Some? && |value.value| > maxLength ==> r == Some(tooLong)
  {
    if value.None? then Some(missing)
    else if |value.value| > maxLength then Some(tooLong)
    else None
  }

  /** Both claim-type columns of a claim-map row are present and short enough. */
  predicate ClaimColumnsValid(row: E.WsFedClaimMap)
  {
    RequiredWithin(row.newClaimType, ClaimTypeMaxLength) && RequiredWithin(row.originalClaimType, ClaimTypeMaxLength)
  }

  /** The violation a claim-map row's own columns commit, NewClaimType first. */
  function ClaimColumnsViolation(row: E.WsFedClaimMap): (r: Option<ConstraintViolation>)
    ensures r.None? <==> ClaimColumnsValid(row)
    ensures r.Some? ==> r.value in {ClaimTypeRequired, ClaimTypeTooLong}
  {
    match ColumnViolation(row.newClaimType, ClaimTypeMaxLength, ClaimTypeRequired, ClaimTypeTooLong)
    case Some(v) => Some(v)
    case None => ColumnViolation(row.originalClaimType, ClaimTypeMaxLength, ClaimTypeRequired, ClaimTypeTooLong)
  }

  /** The first violation among a list of claim-map rows. */
  function FirstClaimViolation(rows: seq<E.WsFedClaimMap>): (r: Option<ConstraintViolation>)
    ensures r.None? <==> forall i :: 0 <= i < |rows| ==> ClaimColumnsValid(rows[i])
    ensures r.Some? ==> exists i :: 0 <= i < |rows| && r == ClaimColumnsViolation(rows[i])
  {
    if rows == [] then None
    else
      match ClaimColumnsViolation(rows[0])
      case Some(v) => Some(v)
      case None =>
        var rest := FirstClaimViolation(rows[1..]);
        assert forall i :: 0 < i < |rows| ==> rows[i] == rows[1..][i - 1];
        rest
  }

  // ---------------------------------------------------------------------------
  // Table contents
  // ---------------------------------------------------------------------------

  /** The keys of the stored relying parties. */
  function Ids(rows: seq<E.RelyingParty>): set<int>
  {
    set row | row in rows :: row.id
  }

  /** The keys of the stored claim-map rows. */
  function ClaimIds(rows: seq<E.WsFedClaimMap>): set<int>
  {
    set row | row in rows :: row.id
  }

  /** Some stored relying party already has this realm. */
  predicate RealmTaken(rows: seq<E.RelyingParty>, realm: Option<string>)
  {
    exists i :: 0 <= i < |rows| && rows[i].realm == realm
  }

  /** Keys and realms of relying-party rows are pairwise distinct. */
  predicate RelyingPartyKeysDistinct(rows: seq<E.RelyingParty>)
  {
    forall i, j :: 0 <= i < j < |rows| ==> rows[i].id != rows[j].id && rows[i].realm != rows[j].realm
  }

  /** Keys of claim-map rows are pairwise distinct. */
  predicate ClaimIdsUnique(rows: seq<E.WsFedClaimMap>)
  {
    forall i, j :: 0 <= i < j < |rows| ==> rows[i].id != rows[j].id
  }

  /** Everything the schema promises about the stored rows, plus the key
      generators being ahead of every key in use. Relying-party rows hold no
      loaded claim collection: their claim rows live in the second table. */
  predicate TablesConsistent(parties: seq<E.RelyingParty>, claims: seq<E.WsFedClaimMap>,
                             nextPartyId: int, nextClaimId: int)
  {
    && 0 < nextPartyId && 0 < nextClaimId
    && (forall i :: 0 <= i < |parties| ==>
          && RequiredWithin(parties[i].realm, RealmMaxLength)
          && parties[i].claimMapping.None?
          && 0 < parties[i].id < nextPartyId)
    && RelyingPartyKeysDistinct(parties)
    && (forall i :: 0 <= i < |claims| ==>
          && ClaimColumnsValid(claims[i])
          && claims[i].relyingPartyId.Some?
          && claims[i].relyingPartyId.value in Ids(parties)
          && 0 < claims[i].id < nextClaimId)
    && ClaimIdsUnique(claims)
  }

  // ---------------------------------------------------------------------------
  // Inserting
  // ---------------------------------------------------------------------------

  /** Why inserting this relying party (with its claim rows) is refused, if
      it is: the realm's column constraints, then its uniqueness, then the
      claim rows' columns. */
  function RelyingPartyInsertViolation(parties: seq<E.RelyingParty>, entity: E.RelyingParty)
    : (r: Option<ConstraintViolation>)
    ensures r.None? <==>
              && RequiredWithin(entity.realm, RealmMaxLength)
              && !RealmTaken(parties, entity.realm)
              && (forall i :: 0 <= i < |E.ClaimRows(entity)| ==> ClaimColumnsValid(E.ClaimRows(entity)[i]))
    ensures entity.realm.None? ==> r == Some(RealmRequired)
    ensures entity.realm.Some? && |entity.realm.value| > RealmMaxLength ==> r == Some(RealmTooLong)
    ensures RequiredWithin(entity.realm, RealmMaxLength) && RealmTaken(parties, entity.realm) ==>
              r == Some(DuplicateRealm)
  {
    match ColumnViolation(entity.realm, RealmMaxLength, RealmRequired, RealmTooLong)
    case Some(v) => Some(v)
    case None =>
      if RealmTaken(parties, entity.realm) then Some(DuplicateRealm)
      else FirstClaimViolation(E.ClaimRows(entity))
  }

  /** Why inserting this claim-map row on its own is refused, if it is: its
      columns, then its parent, which must be a stored relying party. */
  function ClaimMapInsertViolation(parties: seq<E.RelyingParty>, row: E.WsFedClaimMap)
    : (r: Option<ConstraintViolation>)
    ensures r.None? <==>
              ClaimColumnsValid(row) && row.relyingPartyId.Some? && row.relyingPartyId.value in Ids(parties)
    ensures ClaimColumnsValid(row) && (row.relyingPartyId.None? || row.relyingPartyId.value !in Ids(parties)) ==>
              r == Some(MissingParent)
  {
    match ClaimColumnsViolation(row)
    case Some(v) => Some(v)
    case None =>
      if row.relyingPartyId.None? || row.relyingPartyId.value !in Ids(parties) then Some(MissingParent)
      else None
  }

  /** The relying-party row as stored under its generated key. */
  function StoredRow(entity: E.RelyingParty, id: int): (row: E.RelyingParty)
    ensures row.id == id && row.claimMapping.None?
    ensures row.(id := entity.id, claimMapping := entity.claimMapping) == entity
  {
    entity.(id := id, claimMapping := None)
  }

  /** The claim rows of a newly inserted relying party, given consecutive
      generated keys from firstId on and a reference to their parent. */
  function AttachedChildren(children: seq<E.WsFedClaimMap>, parentId: int, firstId: int)
    : (rows: seq<E.WsFedClaimMap>)
    ensures |rows| == |children|
    ensures forall i :: 0 <= i < |rows| ==>
              rows[i] == children[i].(id := firstId + i, relyingPartyId := Some(parentId))
  {
    seq(|children|, i requires 0 <= i < |children| => children[i].(id := firstId + i, relyingPartyId := Some(parentId)))
  }

  /** Inserting an acceptable relying party keeps the tables consistent. */
  lemma {:induction false} InsertRelyingPartyKeepsConsistent(
    parties: seq<E.RelyingParty>, claims: seq<E.WsFedClaimMap>, nextPartyId: int, nextClaimId: int,
    entity: E.RelyingParty)
    requires TablesConsistent(parties, claims, nextPartyId, nextClaimId)
    requires RelyingPartyInsertViolation(parties, entity).None?
    ensures TablesConsistent(
              parties + [StoredRow(entity, nextPartyId)],
              claims + AttachedChildren(E.ClaimRows(entity), nextPartyId, nextClaimId),
              nextPartyId + 1, nextClaimId + |E.ClaimRows(entity)|)
  {
    var parties' := parties + [StoredRow(entity, nextPartyId)];
    var added := AttachedChildren(E.ClaimRows(entity), nextPartyId, nextClaimId);
    var claims' := claims + added;
    assert Ids(parties') == Ids(parties) + {nextPartyId};
    forall i, j | 0 <= i < j < |parties'|
      ensures parties'[i].id != parties'[j].id && parties'[i].realm != parties'[j].realm
    {
      if j == |parties| {
        assert parties'[i] == parties[i];
      }
    }
    forall i | 0 <= i < |claims'|
      ensures && ClaimColumnsValid(claims'[i])
              && claims'[i].relyingPartyId.Some?
              && claims'[i].relyingPartyId.value in Ids(parties')
              && 0 < claims'[i].id < nextClaimId + |E.ClaimRows(entity)|
    {
      if i < |claims| {
        assert claims'[i] == claims[i];
      } else {
        assert claims'[i] == added[i - |claims|];
      }
    }
    forall i, j | 0 <= i < j < |claims'| ensures claims'[i].id != claims'[j].id {
      if j >= |claims| {
        assert claims'[j] == added[j - |claims|];
        if i >= |claims| {
          assert claims'[i] == added[i - |claims|];
        }
      }
    }
  }

  /** Inserting an acceptable claim-map row keeps the tables consistent. */
  lemma {:induction false} InsertClaimMapKeepsConsistent(
    parties: seq<E.RelyingParty>, claims: seq<E.WsFedClaimMap>, nextPartyId: int, nextClaimId: int,
    row: E.WsFedClaimMap)
    requires TablesConsistent(parties, claims, nextPartyId, nextClaimId)
    requires ClaimMapInsertViolation(parties, row).None?
    ensures TablesConsistent(parties, claims + [row.(id := nextClaimId)], nextPartyId, nextClaimId + 1)
  {
    var claims' := claims + [row.(id := nextClaimId)];
    forall i, j | 0 <= i < j < |claims'| ensures claims'[i].id != claims'[j].id {
      assert claims'[i] == claims[i];
    }
  }

  /** Once a relying party is stored, inserting another with the same realm
      is refused as a duplicate, whatever else the second one holds. */
  lemma SecondInsertOfRealmRefused(
    parties: seq<E.RelyingParty>, nextPartyId: int, first: E.RelyingParty, second: E.RelyingParty)
    requires RelyingPartyInsertViolation(parties, first).None?
    requires second.realm == first.realm
    ensures RelyingPartyInsertViolation(parties + [StoredRow(first, nextPartyId)], second) == Some(DuplicateRealm)
  {
    var parties' := parties + [StoredRow(first, nextPartyId)];
    assert parties'[|parties|].realm == second.realm;
  }

  // ---------------------------------------------------------------------------
  // Filtering a table
  // ---------------------------------------------------------------------------

  /** The rows that pass keep, in their order. */
  function Filter<T(==,!new)>(rows: seq<T>, keep: T -> bool): (kept: seq<T>)
    ensures forall row :: row in kept <==> row in rows && keep(row)
    ensures |kept| <= |rows|
  {
    if rows == [] then []
    else (if keep(rows[0]) then [rows[0]] else []) + Filter(rows[1..], keep)
  }

  /** Filtering a concatenation filters each part. */
  lemma {:induction false} FilterAppend<T(!new)>(a: seq<T>, b: seq<T>, keep: T -> bool)
    ensures Filter(a + b, keep) == Filter(a, keep) + Filter(b, keep)
  {
    if a == [] {
      assert a + b == b;
    } else {
      assert (a + b)[0] == a[0] && (a + b)[1..] == a[1..] + b;
      FilterAppend(a[1..], b, keep);
    }
  }

  /** A filter every row passes keeps the whole list. */
  lemma {:induction false} FilterKeepsAll<T(!new)>(rows: seq<T>, keep: T -> bool)
    requires forall i :: 0 <= i < |rows| ==> keep(rows[i])
    ensures Filter(rows, keep) == rows
  {
    if rows != [] {
      FilterKeepsAll(rows[1..], keep);
    }
  }

  /** A filter no row passes keeps nothing. */
  lemma {:induction false} FilterKeepsNone<T(!new)>(rows: seq<T>, keep: T -> bool)
    requires forall i :: 0 <= i < |rows| ==> !keep(rows[i])
    ensures Filter(rows, keep) == []
  {
    if rows != [] {
      FilterKeepsNone(rows[1..], keep);
    }
  }

  /** x occurs in rows at an earlier position than y. */
  ghost predicate Precedes<T>(rows: seq<T>, x: T, y: T)
  {
    exists i, j :: 0 <= i < j < |rows| && rows[i] == x && rows[j] == y
  }

  /** An order among the rows after the first is an order among all rows. */
  lemma PrecedesInTail<T>(rows: seq<T>, x: T, y: T)
    requires rows != [] && Precedes(rows[1..], x, y)
    ensures Precedes(rows, x, y)
  {
    var i, j :| 0 <= i < j < |rows[1..]| && rows[1..][i] == x && rows[1..][j] == y;
    assert rows[i + 1] == x && rows[j + 1] == y;
  }

  /** The first row precedes every row after it. */
  lemma PrecedesFromHead<T>(rows: seq<T>, j: nat)
    requires 0 < j < |rows|
    ensures Precedes(rows, rows[0], rows[j])
  {
    assert 0 < j && rows[0] == rows[0] && rows[j] == rows[j];
  }

  /** Filtering keeps the rows' order: any two kept rows occur in the input
      in the same order. */
  lemma {:induction false} FilterKeepsOrder<T(!new)>(rows: seq<T>, keep: T -> bool)
    ensures forall i, j :: 0 <= i < j < |Filter(rows, keep)| ==>
              Precedes(rows, Filter(rows, keep)[i], Filter(rows, keep)[j])
  {
    if rows != [] {
      var rest := Filter(rows[1..], keep);
      FilterKeepsOrder(rows[1..], keep);
      var kept := Filter(rows, keep);
      forall i, j | 0 <= i < j < |kept| ensures Precedes(rows, kept[i], kept[j]) {
        if keep(rows[0]) {
          assert kept == [rows[0]] + rest;
          if i == 0 {
            assert kept[j] in rows[1..];
            var k :| 0 <= k < |rows[1..]| && rows[1..][k] == kept[j];
            assert kept[j] == rows[k + 1];
            PrecedesFromHead(rows, k + 1);
          } else {
            assert kept[i] == rest[i - 1] && kept[j] == rest[j - 1];
            PrecedesInTail(rows, kept[i], kept[j]);
          }
        } else {
          assert kept == rest;
          PrecedesInTail(rows, kept[i], kept[j]);
        }
      }
    }
  }

  // ---------------------------------------------------------------------------
  // Deleting
  // ---------------------------------------------------------------------------

  /** The relying parties after deleting relying party id. */
  function PartiesAfterDelete(parties: seq<E.RelyingParty>, id: int): seq<E.RelyingParty>
  {
    Filter(parties, (row: E.RelyingParty) => row.id != id)
  }

  /** The claim rows after the cascade from deleting relying party id. */
  function ClaimsAfterCascade(claims: seq<E.WsFedClaimMap>, id: int): seq<E.WsFedClaimMap>
  {
    Filter(claims, (row: E.WsFedClaimMap) => row.relyingPartyId != Some(id))
  }

  /** The claim rows after deleting claim row id. */
  function ClaimsAfterDelete(claims: seq<E.WsFedClaimMap>, id: int): seq<E.WsFedClaimMap>
  {
    Filter(claims, (row: E.WsFedClaimMap) => row.id != id)
  }

  /** Deleting relying-party rows keeps keys and realms distinct. */
  lemma PartiesAfterDeleteDistinct(parties: seq<E.RelyingParty>, id: int)
    requires RelyingPartyKeysDistinct(parties)
    ensures RelyingPartyKeysDistinct(PartiesAfterDelete(parties, id))
  {
    var kept := PartiesAfterDelete(parties, id);
    FilterKeepsOrder(parties, (row: E.RelyingParty) => row.id != id);
    forall i, j | 0 <= i < j < |kept| ensures kept[i].id != kept[j].id && kept[i].realm != kept[j].realm {
      assert Precedes(parties, kept[i], kept[j]);
    }
  }

  /** Deleting claim-map rows keeps their keys distinct. */
  lemma ClaimsFilterUnique(claims: seq<E.WsFedClaimMap>, keep: E.WsFedClaimMap -> bool)
    requires ClaimIdsUnique(claims)
    ensures ClaimIdsUnique(Filter(claims, keep))
  {
    var kept := Filter(claims, keep);
    FilterKeepsOrder(claims, keep);
    forall i, j | 0 <= i < j < |kept| ensures kept[i].id != kept[j].id {
      assert Precedes(claims, kept[i], kept[j]);
    }
  }

  /** Deleting a relying party removes exactly that row and exactly its
      claim rows; every other row stays, and the tables stay consistent. */
  lemma {:induction false} DeleteRelyingPartyKeepsConsistent(
    parties: seq<E.RelyingParty>, claims: seq<E.WsFedClaimMap>, nextPartyId: int, nextClaimId: int, id: int)
    requires TablesConsistent(parties, claims, nextPartyId, nextClaimId)
    ensures TablesConsistent(PartiesAfterDelete(parties, id), ClaimsAfterCascade(claims, id), nextPartyId, nextClaimId)
    ensures id !in Ids(PartiesAfterDelete(parties, id))
    ensures forall row :: row in ClaimsAfterCascade(claims, id) ==> row.relyingPartyId != Some(id)
    ensures forall row :: row in parties && row.id != id ==> row in PartiesAfterDelete(parties, id)
    ensures forall row :: row in claims && row.relyingPartyId != Some(id) ==> row in ClaimsAfterCascade(claims, id)
  {
    var parties', claims' := PartiesAfterDelete(parties, id), ClaimsAfterCascade(claims, id);
    PartiesAfterDeleteDistinct(parties, id);
    ClaimsFilterUnique(claims, (row: E.WsFedClaimMap) => row.relyingPartyId != Some(id));
    forall i | 0 <= i < |parties'|
      ensures RequiredWithin(parties'[i].realm, RealmMaxLength) && parties'[i].claimMapping.None?
              && 0 < parties'[i].id < nextPartyId
    {
      assert parties'[i] in parties;
    }
    forall i | 0 <= i < |claims'|
      ensures && ClaimColumnsValid(claims'[i])
              && claims'[i].relyingPartyId.Some?
              && claims'[i].relyingPartyId.value in Ids(parties')
              && 0 < claims'[i].id < nextClaimId
    {
      assert claims'[i] in claims;
      var parent :| parent in parties && parent.id == claims'[i].relyingPartyId.value;
      assert parent in parties';
    }
  }

  /** Deleting one claim-map row keeps the tables consistent. */
  lemma {:induction false} DeleteClaimMapKeepsConsistent(
    parties: seq<E.RelyingParty>, claims: seq<E.WsFedClaimMap>, nextPartyId: int, nextClaimId: int, id: int)
    requires TablesConsistent(parties, claims, nextPartyId, nextClaimId)
    ensures TablesConsistent(parties, ClaimsAfterDelete(claims, id), nextPartyId, nextClaimId)
    ensures id !in ClaimIds(ClaimsAfterDelete(claims, id))
    ensures forall row :: row in claims && row.id != id ==> row in ClaimsAfterDelete(claims, id)
  {
    var claims' := ClaimsAfterDelete(claims, id);
    ClaimsFilterUnique(claims, (row: E.WsFedClaimMap) => row.id != id);
    forall i | 0 <= i < |claims'|
      ensures && ClaimColumnsValid(claims'[i])
              && claims'[i].relyingPartyId.Some?
              && claims'[i].relyingPartyId.value in Ids(parties)
              && 0 < claims'[i].id < nextClaimId
    {
      assert claims'[i] in claims;
    }
  }

  // ---------------------------------------------------------------------------
  // Loading a relying party's claim rows (the Include of the navigation)
  // ---------------------------------------------------------------------------

  /** The claim rows that refer to relying party partyId, in table order. */
  function ClaimsOf(claims: seq<E.WsFedClaimMap>, partyId: int): seq<E.WsFedClaimMap>
  {
    Filter(claims, (row: E.WsFedClaimMap) => row.relyingPartyId == Some(partyId))
  }

  /** After a relying party is inserted with its claim rows, loading its
      claim rows gives back exactly those rows, with the original and new
      claim types the entity carried, in its order; the claim rows loaded for
      every other relying party are those it had before. */
  lemma InsertedChildrenReadBack(
    parties: seq<E.RelyingParty>, claims: seq<E.WsFedClaimMap>, nextPartyId: int, nextClaimId: int,
    entity: E.RelyingParty)
    requires TablesConsistent(parties, claims, nextPartyId, nextClaimId)
    ensures var added := AttachedChildren(E.ClaimRows(entity), nextPartyId, nextClaimId);
            && ClaimsOf(claims + added, nextPartyId) == added
            && (forall i :: 0 <= i < |added| ==>
                  && added[i].originalClaimType == E.ClaimRows(entity)[i].originalClaimType
                  && added[i].newClaimType == E.ClaimRows(entity)[i].newClaimType)
            && (forall partyId :: partyId != nextPartyId ==>
                  ClaimsOf(claims + added, partyId) == ClaimsOf(claims, partyId))
  {
    var added := AttachedChildren(E.ClaimRows(entity), nextPartyId, nextClaimId);
    var ofNew := (row: E.WsFedClaimMap) => row.relyingPartyId == Some(nextPartyId);
    FilterAppend(claims, added, ofNew);
    forall i | 0 <= i < |claims| ensures !ofNew(claims[i]) {
      var parent :| parent in parties && parent.id == claims[i].relyingPartyId.value;
    }
    FilterKeepsNone(claims, ofNew);
    FilterKeepsAll(added, ofNew);
    forall partyId | partyId != nextPartyId
      ensures ClaimsOf(claims + added, partyId) == ClaimsOf(claims, partyId)
    {
      var ofOther := (row: E.WsFedClaimMap) => row.relyingPartyId == Some(partyId);
      FilterAppend(claims, added, ofOther);
      FilterKeepsNone(added, ofOther);
    }
  }

  // ---------------------------------------------------------------------------
  // The tables
  // ---------------------------------------------------------------------------

  /** The two tables of the configuration store, changed in place by
      inserts and deletes; each change either commits whole or is refused
      and leaves both tables as they were. */
  class ConfigurationTables {
    var relyingParties: seq<E.RelyingParty>
    var claimMappings: seq<E.WsFedClaimMap>
    var nextRelyingPartyId: int
    var nextClaimMapId: int

    ghost predicate Valid()
      reads this
    {
      TablesConsistent(relyingParties, claimMappings, nextRelyingPartyId, nextClaimMapId)
    }

    /** Empty tables; identity keys start at 1. */
    constructor ()
      ensures Valid()
      ensures relyingParties == [] && claimMappings == []
    {
      relyingParties, claimMappings := [], [];
      nextRelyingPartyId, nextClaimMapId := 1, 1;
    }

    /** Adds a relying party together with its claim rows, under generated
      keys, or refuses the whole insert. Returns the new relying party's key. */
    method InsertRelyingParty(entity: E.RelyingParty) returns (r: Result<int, ConstraintViolation>)
      requires Valid()
      modifies this
      ensures Valid()
      ensures r.Failure? <==> RelyingPartyInsertViolation(old(relyingParties), entity).Some?
      ensures r.Failure? ==>
                && r.error == RelyingPartyInsertViolation(old(relyingParties), entity).value
                && unchanged(this)
      ensures r.Success? ==>
                && r.value == old(nextRelyingPartyId)
                && r.value !in Ids(old(relyingParties))
                && relyingParties == old(relyingParties) + [StoredRow(entity, r.value)]
                && claimMappings == old(claimMappings) + AttachedChildren(E.ClaimRows(entity), r.value, old(nextClaimMapId))
                && nextRelyingPartyId == old(nextRelyingPartyId) + 1
                && nextClaimMapId == old(nextClaimMapId) + |E.ClaimRows(entity)|
    {
      var violation := RelyingPartyInsertViolation(relyingParties, entity);
      if violation.Some? {
        return Failure(violation.value);
      }
      var id, children := nextRelyingPartyId, E.ClaimRows(entity);
      InsertRelyingPartyKeepsConsistent(relyingParties, claimMappings, nextRelyingPartyId, nextClaimMapId, entity);
      relyingParties := relyingParties + [StoredRow(entity, id)];
      claimMappings := claimMappings + AttachedChildren(children, id, nextClaimMapId);
      nextRelyingPartyId := id + 1;
      nextClaimMapId := nextClaimMapId + |children|;
      r := Success(id);
    }

    /** Adds one claim-map row under a generated key, or refuses it.
      Returns the new row's key. */
    method InsertClaimMap(row: E.WsFedClaimMap) returns (r: Result<int, ConstraintViolation>)
      requires Valid()
      modifies this
      ensures Valid()
      ensures r.Failure? <==> ClaimMapInsertViolation(old(relyingParties), row).Some?
      ensures r.Failure? ==>
                && r.error == ClaimMapInsertViolation(old(relyingParties), row).value
                && unchanged(this)
      ensures r.Success? ==>
                && r.value == old(nextClaimMapId)
                && r.value !in ClaimIds(old(claimMappings))
                && relyingParties == old(relyingParties)
                && claimMappings == old(claimMappings) + [row.(id := r.value)]
                && nextClaimMapId == old(nextClaimMapId) + 1
                && nextRelyingPartyId == old(nextRelyingPartyId)
    {
      var violation := ClaimMapInsertViolation(relyingParties, row);
      if violation.Some? {
        return Failure(violation.value);
      }
      var id := nextClaimMapId;
      InsertClaimMapKeepsConsistent(relyingParties, claimMappings, nextRelyingPartyId, nextClaimMapId, row);
      claimMappings := claimMappings + [row.(id := id)];
      nextClaimMapId := id + 1;
      r := Success(id);
    }

    /** Deletes relying party id and, by cascade, its claim rows. Returns the
      number of rows deleted; refuses a key that is not stored. */
    method DeleteRelyingParty(id: int) returns (r: Result<nat, ConstraintViolation>)
      requires Valid()
      modifies this
      ensures Valid()
      ensures r.Failure? <==> id !in Ids(old(relyingParties))
      ensures r.Failure? ==> r.error == RowNotFound && unchanged(this)
      ensures r.Success? ==>
                && relyingParties == PartiesAfterDelete(old(relyingParties), id)
                && claimMappings == ClaimsAfterCascade(old(claimMappings), id)
                && r.value == 1 + |old(claimMappings)| - |claimMappings|
      ensures nextRelyingPartyId == old(nextRelyingPartyId) && nextClaimMapId == old(nextClaimMapId)
    {
      if id !in Ids(relyingParties) {
        return Failure(RowNotFound);
      }
      DeleteRelyingPartyKeepsConsistent(relyingParties, claimMappings, nextRelyingPartyId, nextClaimMapId, id);
      var remaining := ClaimsAfterCascade(claimMappings, id);
      r := Success(1 + |claimMappings| - |remaining|);
      relyingParties := PartiesAfterDelete(relyingParties, id);
      claimMappings := remaining;
    }

    /** Deletes one claim-map row; refuses a key that is not stored. */
    method DeleteClaimMap(id: int) returns (r: Result<nat, ConstraintViolation>)
      requires Valid()
      modifies this
      ensures Valid()
      ensures r.Failure? <==> id !in ClaimIds(old(claimMappings))
      ensures r.Failure? ==> r.error == RowNotFound && unchanged(this)
      ensures r.Success? ==>
                && r.value == 1
                && relyingParties == old(relyingParties)
                && claimMappings == ClaimsAfterDelete(old(claimMappings), id)
      ensures nextRelyingPartyId == old(nextRelyingPartyId) && nextClaimMapId == old(nextClaimMapId)
    {
      if id !in ClaimIds(claimMappings) {
        return Failure(RowNotFound);
      }
      DeleteClaimMapKeepsConsistent(relyingParties, claimMappings, nextRelyingPartyId, nextClaimMapId, id);
      claimMappings := ClaimsAfterDelete(claimMappings, id);
      r := Success(1);
    }
  }
}
