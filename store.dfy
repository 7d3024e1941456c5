/** The Entity Framework relying-party store: construction over a database
    context, and the lookup of a relying party by its realm. */
module Stores {
  import opened Common
  import E = Entities
  import M = Models
  import opened RelyingPartyMapperProfile
  import opened RelyingPartyMappers
  import Schema

  /** The exceptions the store throws. */
  datatype StoreError =
    | ArgumentNull(paramName: string)
    | Argument(paramName: string)
    | CertificateRejected(error: M.CertificateError)

  /** .NET's Char.IsWhiteSpace: the Unicode space, line and paragraph
      separators, the controls U+0009 to U+000D, and U+0085. */
  predicate IsWhiteSpace(c: char)
  {
    || '\U{0009}' <= c <= '\U{000D}'
    || c == '\U{0020}' || c == '\U{0085}' || c == '\U{00A0}' || c == '\U{1680}'
    || '\U{2000}' <= c <= '\U{200A}'
    || c == '\U{2028}' || c == '\U{2029}' || c == '\U{202F}' || c == '\U{205F}' || c == '\U{3000}'
  }

  /** string.IsNullOrWhiteSpace: null, empty, or white space only. */
  predicate IsNullOrWhiteSpace(s: Option<string>)
  {
    s.None? || forall i :: 0 <= i < |s.value| ==> IsWhiteSpace(s.value[i])
  }

  /** The position of the first row whose realm is the given one. A row with
      a null realm matches no realm. */
  function FirstWithRealm(rows: seq<E.RelyingParty>, realm: string): (r: Option<nat>)
    ensures r.None? <==> forall i :: 0 <= i < |rows| ==> rows[i].realm != Some(realm)
    ensures r.Some? ==>
              && r.value < |rows|
              && rows[r.value].realm == Some(realm)
              && forall i :: 0 <= i < r.value ==> rows[i].realm != Some(realm)
  {
    if rows == [] then None
    else if rows[0].realm == Some(realm) then Some(0)
    else
      match FirstWithRealm(rows[1..], realm)
      case None => None
      case Some(i) => Some(i + 1)
  }

  /** Where realms are unique, the first match is the only one, so the order
      the rows come back in does not matter. */
  lemma UniqueRealmMatch(rows: seq<E.RelyingParty>, realm: string, i: nat)
    requires Schema.RelyingPartyKeysDistinct(rows)
    requires i < |rows| && rows[i].realm == Some(realm)
    ensures FirstWithRealm(rows, realm) == Some(i)
  {
  }

  /** The lookup by realm over the stored rows. A null or blank realm is
      refused whatever is stored; no match gives null; otherwise the first
      matching row is mapped to a model, and a certificate the platform
      rejects makes the lookup throw. */
  function FindByRealm(rows: seq<E.RelyingParty>, realm: Option<string>, accepts: M.CertificateParser)
    : (r: Result<Option<M.RelyingParty>, StoreError>)
    requires forall i :: 0 <= i < |rows| ==> ClaimsMappable(rows[i])
    ensures IsNullOrWhiteSpace(realm) ==> r == Failure(Argument("realm"))
    ensures !IsNullOrWhiteSpace(realm) ==>
              (r == Success(None) <==> forall i :: 0 <= i < |rows| ==> rows[i].realm != realm)
    ensures !IsNullOrWhiteSpace(realm) && FirstWithRealm(rows, realm.value).Some? ==>
              var e := rows[FirstWithRealm(rows, realm.value).value];
              && (r.Failure? <==> CertificateMalformed(e.encryptionCertificate, accepts))
              && (r.Failure? ==> r.error == CertificateRejected(M.MalformedCertificate))
              && (r.Success? ==>
                    && r.value.Some?
                    && SameScalars(e, r.value.value)
                    && CertificateDecodedFrom(r.value.value.encryptionCertificate, e.encryptionCertificate)
                    && ClaimsMappable(e)
                    && IsClaimDictionary(E.ClaimRows(e), r.value.value.claimMapping))
    ensures r.Success? && r.value.Some? ==> r.value.value.realm == realm
  {
    if IsNullOrWhiteSpace(realm) then Failure(Argument("realm"))
    else
      match FirstWithRealm(rows, realm.value)
      case None => Success(None)
      case Some(i) =>
        match ToModel(Some(rows[i]), accepts)
        case Failure(err) => Failure(CertificateRejected(err))
        case Success(model) => Success(model)
  }

  /** A relying party just inserted under a realm the lookup accepts is
      found by that realm: its scalars and certificate come back, and its
      claim mapping is empty, because the lookup does not load the claim rows. */
  lemma FindAfterInsert(
    parties: seq<E.RelyingParty>, claims: seq<E.WsFedClaimMap>, nextPartyId: int, nextClaimId: int,
    entity: E.RelyingParty, accepts: M.CertificateParser)
    requires Schema.TablesConsistent(parties, claims, nextPartyId, nextClaimId)
    requires Schema.RelyingPartyInsertViolation(parties, entity).None?
    requires !IsNullOrWhiteSpace(entity.realm)
    requires !CertificateMalformed(entity.encryptionCertificate, accepts)
    ensures var rows := parties + [Schema.StoredRow(entity, nextPartyId)];
            && (forall i :: 0 <= i < |rows| ==> ClaimsMappable(rows[i]))
            && var r := FindByRealm(rows, entity.realm, accepts);
               && r.Success? && r.value.Some?
               && SameScalars(entity, r.value.value)
               && CertificateDecodedFrom(r.value.value.encryptionCertificate, entity.encryptionCertificate)
               && r.value.value.claimMapping == map[]
  {
    var rows := parties + [Schema.StoredRow(entity, nextPartyId)];
    Schema.InsertRelyingPartyKeepsConsistent(parties, claims, nextPartyId, nextClaimId, entity);
    UniqueRealmMatch(rows, entity.realm.value, |parties|);
    var r := FindByRealm(rows, entity.realm, accepts);
    assert |r.value.value.claimMapping| == 0;
  }

  /** The schema accepts a realm that is empty or white space only, but the
      lookup refuses such a realm, so that relying party is never found. */
  lemma BlankRealmNeverFound(
    parties: seq<E.RelyingParty>, claims: seq<E.WsFedClaimMap>, nextPartyId: int, nextClaimId: int,
    entity: E.RelyingParty, accepts: M.CertificateParser)
    requires Schema.TablesConsistent(parties, claims, nextPartyId, nextClaimId)
    requires entity.realm.Some? && IsNullOrWhiteSpace(entity.realm)
    requires |entity.realm.value| <= Schema.RealmMaxLength && !Schema.RealmTaken(parties, entity.realm)
    requires forall i :: 0 <= i < |E.ClaimRows(entity)| ==> Schema.ClaimColumnsValid(E.ClaimRows(entity)[i])
    ensures Schema.RelyingPartyInsertViolation(parties, entity).None?
    ensures var rows := parties + [Schema.StoredRow(entity, nextPartyId)];
            && (forall i :: 0 <= i < |rows| ==> ClaimsMappable(rows[i]))
            && FindByRealm(rows, entity.realm, accepts) == Failure(Argument("realm"))
  {
    Schema.InsertRelyingPartyKeepsConsistent(parties, claims, nextPartyId, nextClaimId, entity);
  }

  /** The store over a database context. */
  class RelyingPartyStore {
    const context: Schema.ConfigurationTables

    constructor (context: Schema.ConfigurationTables)
      ensures this.context == context
    {
      this.context := context;
    }

    /** The constructor's null guard: a null context is refused. */
    static method Create(context: Schema.ConfigurationTables?) returns (r: Result<RelyingPartyStore, StoreError>)
      ensures r.Failure? <==> context == null
      ensures r.Failure? ==> r.error == ArgumentNull("context")
      ensures r.Success? ==> fresh(r.value) && r.value.context == context
    {
      if context == null {
        return Failure(ArgumentNull("context"));
      }
      var store := new RelyingPartyStore(context);
      r := Success(store);
    }

    /** Looks a relying party up by realm in the context's table, changing
      nothing. */
    method FindRelyingPartyByRealm(realm: Option<string>, accepts: M.CertificateParser)
      returns (r: Result<Option<M.RelyingParty>, StoreError>)
      requires context.Valid()
      ensures r == FindByRealm(context.relyingParties, realm, accepts)
    {
      if IsNullOrWhiteSpace(realm) {
        return Failure(Argument("realm"));
      }
      var rows := context.relyingParties;
      assert forall i :: 0 <= i < |rows| ==> E.ClaimRows(rows[i]) == [];
      r := FindByRealm(rows, realm, accepts);
    }
  }
}
