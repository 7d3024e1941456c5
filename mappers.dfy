/** The two mapping entry points, ToModel and ToEntity: a null short-circuit
    followed by the profile's member rules, and what the two directions
    promise about each other. */
module RelyingPartyMappers {
  import opened Common
  import E = Entities
  import M = Models
  import opened RelyingPartyMapperProfile

  /** The five scalar strings agree between an entity and a model. */
  predicate SameScalars(entity: E.RelyingParty, model: M.RelyingParty)
  {
    && entity.realm == model.realm
    && entity.tokenType == model.tokenType
    && entity.digestAlgorithm == model.digestAlgorithm
    && entity.signatureAlgorithm == model.signatureAlgorithm
    && entity.samlNameIdentifierFormat == model.samlNameIdentifierFormat
  }

  /** The entity's claim rows can be entered in a dictionary. */
  predicate ClaimsMappable(entity: E.RelyingParty)
  {
    OriginalClaimTypesDistinct(E.ClaimRows(entity))
  }

  /** The certificate constructor would reject these stored bytes. */
  predicate CertificateMalformed(bytes: Option<seq<byte>>, accepts: M.CertificateParser)
  {
    bytes.Some? && bytes.value != [] && !accepts(bytes.value)
  }

  /** A model's certificate is the decoding of the stored bytes: none for
      null or zero-length bytes, otherwise one whose DER data are the bytes. */
  predicate CertificateDecodedFrom(cert: Option<M.Certificate>, bytes: Option<seq<byte>>)
  {
    if bytes.Some? && bytes.value != [] then
      cert.Some? && M.RawCertData(cert.value) == bytes.value
    else
      cert.None?
  }

  /** Entity -> model. A null entity gives null; otherwise the scalars are
      copied, the certificate decoded (a decoding failure is the result) and
      the claim rows entered in a dictionary. */
  function ToModel(entity: Option<E.RelyingParty>, accepts: M.CertificateParser)
    : (r: Result<Option<M.RelyingParty>, M.CertificateError>)
    requires entity.Some? ==> ClaimsMappable(entity.value)
    ensures entity.None? ==> r == Success(None)
    ensures entity.Some? ==>
              (r.Failure? <==> CertificateMalformed(entity.value.encryptionCertificate, accepts))
    ensures entity.Some? && r.Success? ==>
              && r.value.Some?
              && SameScalars(entity.value, r.value.value)
              && CertificateDecodedFrom(r.value.value.encryptionCertificate, entity.value.encryptionCertificate)
              && IsClaimDictionary(E.ClaimRows(entity.value), r.value.value.claimMapping)
  {
    match entity
    case None => Success(None)
    case Some(e) =>
      match CertificateToModel(e.encryptionCertificate, accepts)
      case Failure(err) => Failure(err)
      case Success(cert) =>
        Success(Some(M.RelyingParty(
          e.realm, e.tokenType, e.digestAlgorithm, e.signatureAlgorithm, e.samlNameIdentifierFormat,
          cert, ClaimsToMap(E.ClaimRows(e)))))
  }

  /** What ToEntity builds from a model: a new row (key 0) with the same
      scalars, the certificate's raw data with an empty encoding normalised
      to null, and one new claim row per dictionary entry. */
  predicate IsEntityOf(entity: E.RelyingParty, model: M.RelyingParty)
  {
    && entity.id == 0
    && SameScalars(entity, model)
    && (if model.encryptionCertificate.Some? && M.RawCertData(model.encryptionCertificate.value) != [] then
          entity.encryptionCertificate == Some(M.RawCertData(model.encryptionCertificate.value))
        else
          entity.encryptionCertificate.None?)
    && entity.claimMapping.Some?
    && OriginalClaimTypesDistinct(entity.claimMapping.value)
    && ClaimsToMap(entity.claimMapping.value) == model.claimMapping
    && (forall i :: 0 <= i < |entity.claimMapping.value| ==>
          entity.claimMapping.value[i].id == 0 && entity.claimMapping.value[i].relyingPartyId.None?)
  }

  /** Model -> entity. A null model gives null; otherwise the member rules
      build the entity and the AfterMap step normalises its certificate. */
  method ToEntity(model: Option<M.RelyingParty>) returns (entity: Option<E.RelyingParty>)
    ensures model.None? <==> entity.None?
    ensures model.Some? ==> IsEntityOf(entity.value, model.value)
  {
    if model.None? {
      return None;
    }
    var m := model.value;
    var rows := ClaimRowsFromMap(m.claimMapping);
    var mapped := E.RelyingParty(
      0, m.realm, m.tokenType, m.digestAlgorithm, m.signatureAlgorithm, m.samlNameIdentifierFormat,
      CertificateFromModel(m.encryptionCertificate), Some(rows));
    entity := Some(AfterMap(mapped));
  }

  /** Model -> entity -> model gives the model back, provided its
      certificate, if any, has a non-empty encoding the parser accepts. */
  lemma ModelRoundTrip(model: M.RelyingParty, entity: E.RelyingParty, accepts: M.CertificateParser)
    requires IsEntityOf(entity, model)
    requires model.encryptionCertificate.Some? ==>
               M.RawCertData(model.encryptionCertificate.value) != []
               && accepts(M.RawCertData(model.encryptionCertificate.value))
    ensures ClaimsMappable(entity)
    ensures ToModel(Some(entity), accepts) == Success(Some(model))
  {
    CertificateModelRoundTrip(model.encryptionCertificate, accepts);
    assert entity.encryptionCertificate == NormalizeCertificate(CertificateFromModel(model.encryptionCertificate));
  }

  /** Entity -> model -> entity keeps the scalars, normalises the
      certificate bytes (a zero-length array becomes null), and gives back
      as many claim rows as there were, carrying the same pairs. */
  lemma EntityRoundTrip(entity: E.RelyingParty, model: M.RelyingParty, back: E.RelyingParty,
                        accepts: M.CertificateParser)
    requires ClaimsMappable(entity)
    requires ToModel(Some(entity), accepts) == Success(Some(model))
    requires IsEntityOf(back, model)
    ensures SameScalars(entity, model) && SameScalars(back, model)
    ensures back.encryptionCertificate == NormalizeCertificate(entity.encryptionCertificate)
    ensures |E.ClaimRows(back)| == |E.ClaimRows(entity)|
    ensures forall i :: 0 <= i < |E.ClaimRows(entity)| ==>
              exists j :: 0 <= j < |E.ClaimRows(back)| && ClaimPair(E.ClaimRows(back)[j]) == ClaimPair(E.ClaimRows(entity)[i])
  {
    SameDictionarySamePairs(E.ClaimRows(entity), E.ClaimRows(back), model.claimMapping);
  }

  /** An entity with no claim rows and no certificate maps to a model with
      an empty (not null) dictionary and no certificate. */
  lemma BareEntityToModel(entity: E.RelyingParty, accepts: M.CertificateParser)
    requires entity.claimMapping.None? || entity.claimMapping == Some([])
    requires entity.encryptionCertificate.None?
    ensures ClaimsMappable(entity)
    ensures ToModel(Some(entity), accepts).Success?
    ensures ToModel(Some(entity), accepts).value.Some?
    ensures ToModel(Some(entity), accepts).value.value.claimMapping == map[]
    ensures ToModel(Some(entity), accepts).value.value.encryptionCertificate.None?
  {
    var m := ToModel(Some(entity), accepts).value.value.claimMapping;
    assert |m| == 0;
  }

  /** A model with an empty dictionary and no certificate maps to an entity
      with an empty claim list and null certificate bytes. */
  lemma BareModelToEntity(model: M.RelyingParty, entity: E.RelyingParty)
    requires model.claimMapping == map[] && model.encryptionCertificate.None?
    requires IsEntityOf(entity, model)
    ensures entity.claimMapping == Some([])
    ensures entity.encryptionCertificate.None?
  {
    assert |ClaimsToMap(entity.claimMapping.value)| == 0;
  }
}
