# WS-Federation relying-party data layer, modelled in Dafny

This project models the Entity Framework data layer that stores WS-Federation
relying parties. A relying party is an application that trusts the identity
provider and is identified by its realm. The layer has four parts, and each
has a Dafny module:

- `Entities` holds the persisted rows (`RelyingParty`, `WsFedClaimMap`).
  `Models` holds the consumer-facing `RelyingParty`, with a decoded
  certificate and a claim-type dictionary. `Common` holds `Option`, `Result`
  and `byte`.
- `RelyingPartyMapperProfile` holds the mapper profile's member rules. The
  certificate goes from bytes to a certificate and back, the AfterMap step
  normalises an empty array to null, and each claim-map row corresponds to a
  dictionary entry. The module also holds the list↔dictionary conversions.
- `RelyingPartyMappers` holds the `ToModel` and `ToEntity` entry points, with
  their null short-circuits and round-trip lemmas.
- `Schema` holds the table configuration as a `ConfigurationTables` class:
  - two tables, whose insert and delete methods enforce generated keys;
  - the realm is required, at most 200 characters and unique;
  - both claim types are required and at most 250 characters;
  - every claim-map row has a required parent, deleted with it by cascade.
- `Stores` holds the `RelyingPartyStore`: its null guard on the context, and
  the lookup by realm (`FindByRealm`).

Modelling choices:

- Every C# reference that may be null (strings, `byte[]`, lists, the entity
  and the model themselves) is an `Option`. Every exception is the `Failure`
  side of a `Result`.
- X.509 parsing is a platform library call. It is a parameter
  `accepts: seq<byte> -> bool`, which says which DER encodings the
  certificate constructor accepts. A certificate decoded from a DER encoding
  keeps that encoding as its raw data, so `RawCertData(Decode(b)) == b`
  holds for every accepted DER encoding `b`.
- A claim-map row's `RelyingParty` navigation property is held as the key of
  its parent (`relyingPartyId`).
- Keys are always generated by the table, starting at 1.
- `ToEntity` is a method because it enumerates a dictionary, whose order
  C# leaves unspecified. Its loop picks any pending key, so the proof covers
  every enumeration order. `ToModel` is a function. Its contract, like the
  partner lemmas, is stated through `IsClaimDictionary`: one entry per row,
  each original claim type mapped to its new claim type, and no other keys.
- The realm lookup is a function over the stored rows (`FindByRealm`). The
  store's method evaluates it against the context's table, and its frame
  shows that it changes nothing.

Two consequences of the code that the model makes explicit:

- The schema only makes the realm required (not null) and at most 200
  characters, so an empty or blank realm can be inserted. The lookup refuses
  such a realm, so that row is never found (`Stores.BlankRealmNeverFound`).
- The lookup returns the first match (`FirstOrDefault`).
  `Stores.UniqueRealmMatch` proves it is the only match while realms are
  unique, as the tables keep them.

## Model

| member | source | states |
|---|---|---|
| Models.DecodeCertificate | src/Rsk.IdentityServer4.WsFederation.EntityFramework/Mappers/RelyingPartyMapperProfile.cs:16 | the certificate constructor succeeds exactly on accepted DER encodings, and the certificate's raw data are that encoding |
| RelyingPartyMapperProfile.CertificateToModel | src/Rsk.IdentityServer4.WsFederation.EntityFramework/Mappers/RelyingPartyMapperProfile.cs:13-17 | null or zero-length bytes give no certificate; other bytes fail exactly when the parser rejects them (the failure propagates), and otherwise give a certificate whose raw data are the bytes |
| RelyingPartyMapperProfile.CertificateFromModel | src/Rsk.IdentityServer4.WsFederation.EntityFramework/Mappers/RelyingPartyMapperProfile.cs:19-23 | a null certificate gives null bytes; a certificate gives its raw data |
| RelyingPartyMapperProfile.NormalizeCertificate | src/Rsk.IdentityServer4.WsFederation.EntityFramework/Mappers/RelyingPartyMapperProfile.cs:24-26 | the result is null or non-empty; non-empty bytes are kept unchanged; any non-null result is the input |
| RelyingPartyMapperProfile.NormalizeCertificateIdempotent | src/Rsk.IdentityServer4.WsFederation.EntityFramework/Mappers/RelyingPartyMapperProfile.cs:24-26 | normalising twice is the same as normalising once |
| RelyingPartyMapperProfile.AfterMap | src/Rsk.IdentityServer4.WsFederation.EntityFramework/Mappers/RelyingPartyMapperProfile.cs:24-26 | after the step the entity's certificate is null or non-empty; an entity with non-empty bytes is unchanged, and null or zero-length bytes become null; no field other than the certificate changes |
| RelyingPartyMapperProfile.CertificateEntityRoundTrip | src/Rsk.IdentityServer4.WsFederation.EntityFramework/Mappers/RelyingPartyMapperProfile.cs:12-26 | bytes → certificate → bytes succeeds for accepted bytes and gives back the normalised bytes; null or non-empty DER bytes come back exactly |
| RelyingPartyMapperProfile.CertificateModelRoundTrip | src/Rsk.IdentityServer4.WsFederation.EntityFramework/Mappers/RelyingPartyMapperProfile.cs:12-26 | certificate → bytes → certificate gives back the same certificate (or none) when its encoding is non-empty and accepted |
| RelyingPartyMapperProfile.ClaimPair | src/Rsk.IdentityServer4.WsFederation.EntityFramework/Mappers/RelyingPartyMapperProfile.cs:28-29 | a row becomes the pair (OriginalClaimType, NewClaimType) |
| RelyingPartyMapperProfile.ClaimRow | src/Rsk.IdentityServer4.WsFederation.EntityFramework/Mappers/RelyingPartyMapperProfile.cs:30-31 | a pair (Key, Value) becomes a new row whose pair is (Key, Value), with a default key and no parent |
| RelyingPartyMapperProfile.ClaimPairRoundTrip | src/Rsk.IdentityServer4.WsFederation.EntityFramework/Mappers/RelyingPartyMapperProfile.cs:28-31 | row → pair → row keeps both claim types and drops only the key and parent |
| RelyingPartyMapperProfile.ClaimsToMap | src/Rsk.IdentityServer4.WsFederation.EntityFramework/Mappers/RelyingPartyMapperProfile.cs:28-29 | rows with distinct non-null original claim types become a dictionary with exactly one entry per row, mapping each original claim type to its new claim type |
| RelyingPartyMapperProfile.ClaimDictionaryUnique | src/Rsk.IdentityServer4.WsFederation.EntityFramework/Mappers/RelyingPartyMapperProfile.cs:28-29 | the rows determine their dictionary |
| RelyingPartyMapperProfile.SameDictionarySamePairs | src/Rsk.IdentityServer4.WsFederation.EntityFramework/Mappers/RelyingPartyMapperProfile.cs:28-31 | two row lists with the same dictionary have the same length and the same pairs, in any order |
| RelyingPartyMapperProfile.ClaimRowsFromMap | src/Rsk.IdentityServer4.WsFederation.EntityFramework/Mappers/RelyingPartyMapperProfile.cs:30-31 | a dictionary becomes new rows with distinct keys, whose dictionary is the input; each row is unsaved and has no parent |
| RelyingPartyMappers.ToModel | src/Rsk.IdentityServer4.WsFederation.EntityFramework/Mappers/RelyingPartyMappers.cs:16-20 | null gives null; otherwise the mapping fails exactly when non-empty certificate bytes are rejected, and on success the five scalars are copied, the certificate is decoded from the bytes and the claim mapping is the rows' dictionary |
| RelyingPartyMappers.ToEntity | src/Rsk.IdentityServer4.WsFederation.EntityFramework/Mappers/RelyingPartyMappers.cs:22-26 | null gives null and only null gives null; otherwise the result is a new entity with the same scalars, the certificate's non-empty raw data or null, and new claim rows whose dictionary is the model's mapping |
| RelyingPartyMappers.ModelRoundTrip | src/Rsk.IdentityServer4.WsFederation.EntityFramework/Mappers/RelyingPartyMappers.cs:16-26 | model → entity → model gives the model back when its certificate (if any) has a non-empty, accepted encoding |
| RelyingPartyMappers.EntityRoundTrip | src/Rsk.IdentityServer4.WsFederation.EntityFramework/Mappers/RelyingPartyMappers.cs:16-26 | entity → model → entity keeps the scalars, normalises the certificate bytes, and gives back as many claim rows, carrying the same pairs |
| RelyingPartyMappers.BareEntityToModel | src/Rsk.IdentityServer4.WsFederation.EntityFramework/Mappers/RelyingPartyMappers.cs:16-20 | an entity with no claim rows (null or empty) and no certificate maps to an empty, non-null dictionary and no certificate |
| RelyingPartyMappers.BareModelToEntity | src/Rsk.IdentityServer4.WsFederation.EntityFramework/Mappers/RelyingPartyMappers.cs:22-26 | a model with an empty dictionary and no certificate maps to an empty claim list and null bytes |
| Schema.ColumnViolation | src/Rsk.IdentityServer4.WsFederation.EntityFramework/Extensions/ModelBuilderExtensions.cs:15 | a required, length-bounded column is refused exactly when it is null (missing) or longer than its bound (too long) |
| Schema.ClaimColumnsViolation | src/Rsk.IdentityServer4.WsFederation.EntityFramework/Extensions/ModelBuilderExtensions.cs:27-28 | a claim-map row is refused exactly when a claim type is null or longer than 250, and only with a claim-type violation |
| Schema.FirstClaimViolation | src/Rsk.IdentityServer4.WsFederation.EntityFramework/Extensions/ModelBuilderExtensions.cs:27-28 | a list of rows is refused exactly when one of its rows is, and then with that row's violation |
| Schema.RelyingPartyInsertViolation | src/Rsk.IdentityServer4.WsFederation.EntityFramework/Extensions/ModelBuilderExtensions.cs:15-17 | an insert is accepted exactly when the realm is non-null, at most 200 long and not yet stored, and every claim row is valid; a null, overlong or duplicate realm gives its own violation |
| Schema.ClaimMapInsertViolation | src/Rsk.IdentityServer4.WsFederation.EntityFramework/Extensions/ModelBuilderExtensions.cs:19-28 | a claim-map row is accepted exactly when its claim types are valid and it refers to a stored relying party; an orphan with valid columns is refused as a missing parent |
| Schema.StoredRow | src/Rsk.IdentityServer4.WsFederation.EntityFramework/Extensions/ModelBuilderExtensions.cs:13 | the stored row carries the generated key, no loaded collection, and otherwise the entity's fields |
| Schema.AttachedChildren | src/Rsk.IdentityServer4.WsFederation.EntityFramework/Extensions/ModelBuilderExtensions.cs:19 | each child of an inserted relying party is stored in order, under a consecutive generated key, referring to its parent |
| Schema.InsertRelyingPartyKeepsConsistent | src/Rsk.IdentityServer4.WsFederation.EntityFramework/Extensions/ModelBuilderExtensions.cs:13-28 | an accepted relying-party insert keeps keys unique, realms unique, required, and within 200, claim types valid, and every claim row's parent stored |
| Schema.InsertClaimMapKeepsConsistent | src/Rsk.IdentityServer4.WsFederation.EntityFramework/Extensions/ModelBuilderExtensions.cs:19-28 | an accepted claim-map insert keeps the tables consistent |
| Schema.SecondInsertOfRealmRefused | src/Rsk.IdentityServer4.WsFederation.EntityFramework/Extensions/ModelBuilderExtensions.cs:17 | once a realm is stored, inserting another relying party with that realm is refused as a duplicate |
| Schema.DeleteRelyingPartyKeepsConsistent | src/Rsk.IdentityServer4.WsFederation.EntityFramework/Extensions/ModelBuilderExtensions.cs:19 | deleting a relying party keeps the tables consistent; the key is gone, no remaining claim row refers to it, and every other row of either table remains |
| Schema.DeleteClaimMapKeepsConsistent | src/Rsk.IdentityServer4.WsFederation.EntityFramework/Extensions/ModelBuilderExtensions.cs:25 | deleting one claim-map row keeps the tables consistent; its key is gone and every other claim row remains |
| Schema.InsertedChildrenReadBack | src/Rsk.IdentityServer4.WsFederation.EntityFramework/Extensions/ModelBuilderExtensions.cs:19 | after an insert, loading the new relying party's claim rows gives exactly the inserted rows, with the entity's claim types in its order; every other relying party's claim rows are as before |
| Schema.ConfigurationTables.constructor | src/Rsk.IdentityServer4.WsFederation.EntityFramework/Extensions/ModelBuilderExtensions.cs:8-30 | new tables are empty and consistent |
| Schema.ConfigurationTables.InsertRelyingParty | src/Rsk.IdentityServer4.WsFederation.EntityFramework/Extensions/ModelBuilderExtensions.cs:13-28 | the insert fails exactly on a violation, and then reports it and changes nothing; on success it appends the row under a fresh key and its claim rows attached to it, advances the relying-party key generator by one and the claim-map generator by the number of claim rows, and the tables stay consistent |
| Schema.ConfigurationTables.InsertClaimMap | src/Rsk.IdentityServer4.WsFederation.EntityFramework/Extensions/ModelBuilderExtensions.cs:19-28 | the insert fails exactly on invalid claim types or a missing parent, and then changes nothing; on success it appends the row under a fresh key, advances only the claim-map key generator by one, and the tables stay consistent |
| Schema.ConfigurationTables.DeleteRelyingParty | src/Rsk.IdentityServer4.WsFederation.EntityFramework/Extensions/ModelBuilderExtensions.cs:19 | deleting an unknown key fails and changes nothing; otherwise the row and exactly its claim rows go (cascade), the count of deleted rows is returned, and the tables stay consistent |
| Schema.ConfigurationTables.DeleteClaimMap | src/Rsk.IdentityServer4.WsFederation.EntityFramework/Extensions/ModelBuilderExtensions.cs:25 | deleting an unknown key fails and changes nothing; otherwise exactly that row goes and the relying parties stay |
| Stores.FirstWithRealm | src/Rsk.IdentityServer4.WsFederation.EntityFramework/Stores/RelyingPartyStore.cs:23 | there is no match exactly when no row's realm equals the query; otherwise the position of the first equal row |
| Stores.UniqueRealmMatch | src/Rsk.IdentityServer4.WsFederation.EntityFramework/Stores/RelyingPartyStore.cs:23 | when realms are unique, the first match is the only row with that realm |
| Stores.FindByRealm | src/Rsk.IdentityServer4.WsFederation.EntityFramework/Stores/RelyingPartyStore.cs:21-25 | a null or blank realm is an argument error, whatever is stored; no equal row gives null, and a null result means no equal row exists; otherwise the first equal row is mapped, failing exactly when its certificate is rejected; a returned model's realm is the query |
| Stores.FindAfterInsert | src/Rsk.IdentityServer4.WsFederation.EntityFramework/Stores/RelyingPartyStore.cs:19-25 | a relying party just inserted under a non-blank realm is found by it, with its scalars and certificate, and an empty claim mapping because claim rows are not loaded |
| Stores.BlankRealmNeverFound | src/Rsk.IdentityServer4.WsFederation.EntityFramework/Stores/RelyingPartyStore.cs:21 | a blank realm within 200 characters is accepted by the insert but refused by the lookup |
| Stores.RelyingPartyStore.constructor | src/Rsk.IdentityServer4.WsFederation.EntityFramework/Stores/RelyingPartyStore.cs:14-17 | the store keeps the context it is given |
| Stores.RelyingPartyStore.Create | src/Rsk.IdentityServer4.WsFederation.EntityFramework/Stores/RelyingPartyStore.cs:14-17 | a null context fails with an argument-null error naming "context", and only a null one; otherwise a new store over that context |
| Stores.RelyingPartyStore.FindRelyingPartyByRealm | src/Rsk.IdentityServer4.WsFederation.EntityFramework/Stores/RelyingPartyStore.cs:19-26 | the lookup over the context's relying-party table, with no modifies clause, so the tables are unchanged |

## Left out

- Async execution (`Task`, `FirstOrDefaultAsync`), the `DbContext`, its `DbSet`s, `SaveChanges` and the database providers. The tables are in-memory sequences, and each insert or delete commits at once.
- AutoMapper's configuration machinery and the static mapper instance. Each member rule is a plain function.
- X.509 parsing, thumbprints and subject names. They are represented by the `accepts` parser parameter and by a certificate that keeps its DER bytes.
- Models.DecodeCertificate: the platform's certificate constructor also accepts Base64/PEM text and PKCS#7 or PFX blobs. A certificate read from those comes back from `GetRawCertData` re-encoded as DER, not as the stored bytes. The model treats every stored encoding as DER, so `RelyingPartyMapperProfile.CertificateEntityRoundTrip` ("non-empty bytes come back exactly") holds only for DER input.
- Duplicate or null `OriginalClaimType` values in the list→dictionary direction. The source defines no policy for them, so distinct, non-null keys are a precondition (`OriginalClaimTypesDistinct`).
- RelyingPartyMappers.ToEntity: the model's claim dictionary is never null here, so the null-dictionary case is not modelled.
- RelyingPartyMapperProfile.AfterMap: the in-place overwrite of the destination's certificate is a field update of a value. Entities are values throughout, so aliasing between an entity and other references to it is not modelled.
- Schema.RelyingPartyInsertViolation: the unique index on the realm is modelled with exact, ordinal string equality (`RealmTaken`). The database compares realms under the column's collation, and a case-insensitive or blank-padding collation (SQL Server's default is both) refuses more realms: after "urn:app" it also refuses "urn:App" and "urn:app ", which the model accepts.
- Stores.FindByRealm: realm equality is exact, ordinal string equality. A database collation that compares case-insensitively is not modelled.
- Stores.FindByRealm: the found row's claim collection is whatever the row holds. Rows read from the tables hold none, because the lookup does not `Include` them. Navigation fix-up from entities already tracked by the context, and lazy loading of the virtual collection, are not modelled.
- Schema.ConfigurationTables.InsertRelyingParty: explicitly supplied key values are not modelled; every key is generated.
- Schema.ConfigurationTables.InsertRelyingParty: whether a provider enforces the 200 and 250 limits varies (the in-memory provider does not). The model always enforces them.
- Schema.ConfigurationTables.InsertRelyingParty: a string's length is its number of Unicode scalar values, while the 200 and 250 limits are measured in UTF-16 code units (nvarchar columns, C# `string.Length`). A character outside the Basic Multilingual Plane therefore counts once here rather than twice, so a realm of 101 such characters (202 code units) is accepted by the model but refused by the database.
- Schema.ConfigurationTables.InsertClaimMap: the same applies to the 250-unit limits on NewClaimType and OriginalClaimType; lengths count scalar values, not UTF-16 code units.
- Schema.ConfigurationTables.InsertRelyingParty: the order in which a provider checks constraints, and so which violation it reports first, is a modelling choice: realm, then uniqueness, then claim rows (NewClaimType before OriginalClaimType).
- Updates of stored rows, and concurrency between contexts, are not part of this model.
