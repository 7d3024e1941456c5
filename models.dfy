/** The consumer-facing domain model of a relying party, and the certificate
    type it holds.

    Parsing an X.509 certificate is a call into the platform's certificate
    library. It is represented here by a parser passed in by the caller (a
    predicate saying which DER encodings the library accepts) and by a
    certificate value that remembers the DER bytes it was decoded from.
    Other encodings the library reads (Base64/PEM text, PKCS#7, PFX) are
    not modelled. */
module Models {
  import opened Common

  /** A decoded certificate; rawData is what GetRawCertData returns. */
  datatype Certificate = Certificate(rawData: seq<byte>)

  /** The exception the certificate constructor throws on malformed input. */
  datatype CertificateError = MalformedCertificate

  /** Which DER encodings the platform's certificate constructor accepts. */
  type CertificateParser = seq<byte> -> bool

  /** The certificate constructor: decodes the bytes or throws. */
  function DecodeCertificate(bytes: seq<byte>, accepts: CertificateParser): (r: Result<Certificate, CertificateError>)
    ensures r.Success? <==> accepts(bytes)
    ensures r.Success? ==> RawCertData(r.value) == bytes
  {
    if accepts(bytes) then Success(Certificate(bytes)) else Failure(MalformedCertificate)
  }

  /** The certificate's DER encoding. */
  function RawCertData(cert: Certificate): seq<byte>
  {
    cert.rawData
  }

  /** The domain model: the same scalar strings as the entity, a decoded
      certificate, and the claim mapping as a dictionary from original claim
      type to new claim type (a dictionary key is never null, a value may be). */
  datatype RelyingParty = RelyingParty(
    realm: Option<string>,
    tokenType: Option<string>,
    digestAlgorithm: Option<string>,
    signatureAlgorithm: Option<string>,
    samlNameIdentifierFormat: Option<string>,
    encryptionCertificate: Option<Certificate>,
    claimMapping: map<string, Option<string>>)
}
