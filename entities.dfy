/** The persisted entities: the rows of the RelyingParties and
    RelyingPartyClaimMappings tables as Entity Framework materialises them.
    Every C# string, byte[] and List property is a reference that may be
    null, hence an Option. */
module Entities {
  import opened Common

  /** One claim-mapping row. The RelyingParty navigation property is held
      as the key of the owning relying party (the foreign key column);
      None is a row whose parent reference is null. */
  datatype WsFedClaimMap = WsFedClaimMap(
    id: int,
    originalClaimType: Option<string>,
    newClaimType: Option<string>,
    relyingPartyId: Option<int>)

  /** One relying-party row. claimMapping is the navigation collection: None
      when it was not loaded or never set. */
  datatype RelyingParty = RelyingParty(
    id: int,
    realm: Option<string>,
    tokenType: Option<string>,
    digestAlgorithm: Option<string>,
    signatureAlgorithm: Option<string>,
    samlNameIdentifierFormat: Option<string>,
    encryptionCertificate: Option<seq<byte>>,
    claimMapping: Option<seq<WsFedClaimMap>>)

  /** The relying party's claim-map rows; a null collection counts as an
      empty one, as both the mapper and the insert of an object graph treat it. */
  function ClaimRows(entity: RelyingParty): seq<WsFedClaimMap>
  {
    if entity.claimMapping.Some? then entity.claimMapping.value else []
  }
}
