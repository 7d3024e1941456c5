/** The member rules of the relying-party mapper profile: how the certificate
    crosses between raw bytes and a decoded certificate in each direction,
    the post-mapping normalisation of the entity's certificate, and how one
    claim-map row and one dictionary entry correspond. */
module RelyingPartyMapperProfile {
  import opened Common
  import E = Entities
  import M = Models

  // ---------------------------------------------------------------------------
  // Certificates
  // ---------------------------------------------------------------------------

  /** Entity -> model rule for EncryptionCertificate: null or zero-length bytes
      give no certificate; anything else is handed to the certificate
      constructor, whose failure propagates. */
  function CertificateToModel(bytes: Option<seq<byte>>, accepts: M.CertificateParser)
    : (r: Result<Option<M.Certificate>, M.CertificateError>)
    ensures bytes.None? || bytes.value == [] ==> r == Success(None)
    ensures bytes.Some? && bytes.value != [] ==> (r.Failure? <==> !accepts(bytes.value))
    ensures r.Success? && bytes.Some? && bytes.value != [] ==>
              r.value.Some? && M.RawCertData(r.value.value) == bytes.value
  {
    if bytes.Some? && 0 < |bytes.value| then
      match M.DecodeCertificate(bytes.value, accepts)
      case Success(cert) => Success(Some(cert))
      case Failure(err) => Failure(err)
    else
      Success(None)
  }

  /** Model -> entity rule for EncryptionCertificate, before the AfterMap step:
      a null certificate gives null bytes, otherwise its raw DER data (which
      this step does not yet normalise). */
  function CertificateFromModel(cert: Option<M.Certificate>): (r: Option<seq<byte>>)
    ensures r.None? <==> cert.None?
    ensures cert.Some? ==> r.value == M.RawCertData(cert.value)
  {
    match cert
    case Some(c) => Some(M.RawCertData(c))
    case None => None
  }

  /** The AfterMap normalisation of the entity's certificate bytes: a
      zero-length array becomes null, anything else is kept. */
  function NormalizeCertificate(bytes: Option<seq<byte>>): (r: Option<seq<byte>>)
    ensures r.None? || r.value != []
    ensures bytes.Some? && bytes.value != [] ==> r == bytes
    ensures r.Some? ==> r == bytes
  {
    if bytes.Some? && 0 < |bytes.value| then bytes else None
  }

  /** Normalising an already-normalised value changes nothing. */
  lemma NormalizeCertificateIdempotent(bytes: Option<seq<byte>>)
    ensures NormalizeCertificate(NormalizeCertificate(bytes)) == NormalizeCertificate(bytes)
  {
  }

  /** The AfterMap step on the freshly built entity: it overwrites the
      certificate with its normalised form and touches no other field. */
  function AfterMap(dest: E.RelyingParty): (r: E.RelyingParty)
    ensures r.encryptionCertificate.None? || r.encryptionCertificate.value != []
    ensures dest.encryptionCertificate.Some? && dest.encryptionCertificate.value != [] ==>
              r == dest
    ensures r.encryptionCertificate.Some? ==> r.encryptionCertificate == dest.encryptionCertificate
    ensures r.(encryptionCertificate := dest.encryptionCertificate) == dest
  {
    dest.(encryptionCertificate := NormalizeCertificate(dest.encryptionCertificate))
  }

  /** Stored bytes -> certificate -> stored bytes gives the stored bytes back
      once normalised: null stays null, a zero-length array becomes null,
      and accepted bytes are reproduced exactly. */
  lemma CertificateEntityRoundTrip(bytes: Option<seq<byte>>, accepts: M.CertificateParser)
    requires bytes.Some? && bytes.value != [] ==> accepts(bytes.value)
    ensures CertificateToModel(bytes, accepts).Success?
    ensures NormalizeCertificate(CertificateFromModel(CertificateToModel(bytes, accepts).value))
            == NormalizeCertificate(bytes)
    ensures bytes.None? || bytes.value != [] ==>
              NormalizeCertificate(CertificateFromModel(CertificateToModel(bytes, accepts).value)) == bytes
  {
  }

  /** Certificate -> stored bytes -> certificate gives the certificate back,
      provided its DER data is non-empty and accepted by the parser. */
  lemma CertificateModelRoundTrip(cert: Option<M.Certificate>, accepts: M.CertificateParser)
    requires cert.Some? ==> M.RawCertData(cert.value) != [] && accepts(M.RawCertData(cert.value))
    ensures CertificateToModel(NormalizeCertificate(CertificateFromModel(cert)), accepts) == Success(cert)
  {
  }

  // ---------------------------------------------------------------------------
  // Claim mappings
  // ---------------------------------------------------------------------------

  /** A claim-map row becomes the key/value pair (OriginalClaimType, NewClaimType). */
  function ClaimPair(row: E.WsFedClaimMap): (pair: (Option<string>, Option<string>))
    ensures pair.0 == row.originalClaimType && pair.1 == row.newClaimType
  {
    (row.originalClaimType, row.newClaimType)
  }

  /** A dictionary entry (Key, Value) becomes a new, unsaved claim-map row
      with OriginalClaimType = Key and NewClaimType = Value; its key and
      parent are left at their defaults. */
  function ClaimRow(key: string, value: Option<string>): (row: E.WsFedClaimMap)
    ensures ClaimPair(row) == (Some(key), value)
    ensures row.id == 0 && row.relyingPartyId.None?
  {
    E.WsFedClaimMap(0, Some(key), value, None)
  }

  /** Row -> pair -> row keeps both claim types and loses only the row's key
      and parent reference. */
  lemma ClaimPairRoundTrip(row: E.WsFedClaimMap)
    requires row.originalClaimType.Some?
    ensures ClaimRow(ClaimPair(row).0.value, ClaimPair(row).1) == row.(id := 0, relyingPartyId := None)
  {
  }

  /** The rows can be entered in a dictionary: every original claim type is
      present (a dictionary key cannot be null) and no two rows share one. */
  predicate OriginalClaimTypesDistinct(rows: seq<E.WsFedClaimMap>)
  {
    && (forall i :: 0 <= i < |rows| ==> rows[i].originalClaimType.Some?)
    && (forall i, j :: 0 <= i < j < |rows| ==> rows[i].originalClaimType != rows[j].originalClaimType)
  }

  /** m is the dictionary of the rows: exactly one entry per row, each row's
      original claim type maps to its new claim type, and every key comes
      from some row. */
  predicate IsClaimDictionary(rows: seq<E.WsFedClaimMap>, m: map<string, Option<string>>)
    requires OriginalClaimTypesDistinct(rows)
  {
    && |m| == |rows|
    && (forall i :: 0 <= i < |rows| ==>
          rows[i].originalClaimType.value in m && m[rows[i].originalClaimType.value] == rows[i].newClaimType)
    && (forall k :: k in m ==> exists i :: 0 <= i < |rows| && rows[i].originalClaimType == Some(k))
  }

  /** The last row's key is not yet in the dictionary of the rows before it. */
  lemma {:induction false} LastClaimKeyIsNew(rows: seq<E.WsFedClaimMap>, earlier: map<string, Option<string>>)
    requires rows != [] && OriginalClaimTypesDistinct(rows)
    requires OriginalClaimTypesDistinct(rows[..|rows| - 1]) && IsClaimDictionary(rows[..|rows| - 1], earlier)
    ensures rows[|rows| - 1].originalClaimType.value !in earlier
  {
    var init, key := rows[..|rows| - 1], rows[|rows| - 1].originalClaimType.value;
    forall k | k in earlier ensures k != key {
      var i :| 0 <= i < |init| && init[i].originalClaimType == Some(k);
      assert rows[i] == init[i];
    }
  }

  /** Entering the last row into the dictionary of the rows before it gives
      the dictionary of all the rows. */
  lemma {:induction false} EnterLastClaim(rows: seq<E.WsFedClaimMap>, earlier: map<string, Option<string>>)
    requires rows != [] && OriginalClaimTypesDistinct(rows)
    requires OriginalClaimTypesDistinct(rows[..|rows| - 1]) && IsClaimDictionary(rows[..|rows| - 1], earlier)
    ensures IsClaimDictionary(rows, earlier[rows[|rows| - 1].originalClaimType.value := rows[|rows| - 1].newClaimType])
  {
    var init, last := rows[..|rows| - 1], rows[|rows| - 1];
    var m := earlier[last.originalClaimType.value := last.newClaimType];
    LastClaimKeyIsNew(rows, earlier);
    forall i | 0 <= i < |rows|
      ensures rows[i].originalClaimType.value in m && m[rows[i].originalClaimType.value] == rows[i].newClaimType
    {
      if i < |init| { assert rows[i] == init[i]; }
    }
    forall k | k in m ensures exists i :: 0 <= i < |rows| && rows[i].originalClaimType == Some(k) {
      if k in earlier {
        var i :| 0 <= i < |init| && init[i].originalClaimType == Some(k);
        assert rows[i] == init[i];
      } else {
        assert rows[|rows| - 1].originalClaimType == Some(k);
      }
    }
  }

  /** Rows determine their dictionary: two dictionaries of the same rows are equal. */
  lemma ClaimDictionaryUnique(rows: seq<E.WsFedClaimMap>, m1: map<string, Option<string>>, m2: map<string, Option<string>>)
    requires OriginalClaimTypesDistinct(rows) && IsClaimDictionary(rows, m1) && IsClaimDictionary(rows, m2)
    ensures m1 == m2
  {
    forall k | k in m1 ensures k in m2 && m2[k] == m1[k] {
      var i :| 0 <= i < |rows| && rows[i].originalClaimType == Some(k);
    }
    forall k | k in m2 ensures k in m1 {
      var i :| 0 <= i < |rows| && rows[i].originalClaimType == Some(k);
    }
  }

  /** Two row lists with the same dictionary have the same length and carry
      the same key/value pairs, whatever their order. */
  lemma SameDictionarySamePairs(rows: seq<E.WsFedClaimMap>, others: seq<E.WsFedClaimMap>, m: map<string, Option<string>>)
    requires OriginalClaimTypesDistinct(rows) && IsClaimDictionary(rows, m)
    requires OriginalClaimTypesDistinct(others) && IsClaimDictionary(others, m)
    ensures |others| == |rows|
    ensures forall i :: 0 <= i < |rows| ==>
              exists j :: 0 <= j < |others| && ClaimPair(others[j]) == ClaimPair(rows[i])
  {
    forall i | 0 <= i < |rows|
      ensures exists j :: 0 <= j < |others| && ClaimPair(others[j]) == ClaimPair(rows[i])
    {
      var key := rows[i].originalClaimType.value;
      var j :| 0 <= j < |others| && others[j].originalClaimType == Some(key);
      assert ClaimPair(others[j]) == ClaimPair(rows[i]);
    }
  }

  /** The claim-map list as a dictionary, the rows entered in list order. */
  function ClaimsToMap(rows: seq<E.WsFedClaimMap>): (m: map<string, Option<string>>)
    requires OriginalClaimTypesDistinct(rows)
    ensures IsClaimDictionary(rows, m)
    decreases |rows|
  {
    if rows == [] then
      map[]
    else
      var (key, value) := ClaimPair(rows[|rows| - 1]);
      var earlier := ClaimsToMap(rows[..|rows| - 1]);
      EnterLastClaim(rows, earlier);
      earlier[key.value := value]
  }

  /** The part of m whose keys have been entered: every key not pending. */
  function Entered(m: map<string, Option<string>>, pending: set<string>): (done: map<string, Option<string>>)
    ensures done.Keys == m.Keys - pending
    ensures forall k :: k in done ==> done[k] == m[k]
  {
    map k | k in m.Keys - pending :: m[k]
  }

  /** The loop state of ClaimRowsFromMap: the rows are new, unsaved rows
      forming the dictionary of the entries already entered. */
  predicate EnteredAsRows(rows: seq<E.WsFedClaimMap>, m: map<string, Option<string>>, pending: set<string>)
  {
    && pending <= m.Keys
    && OriginalClaimTypesDistinct(rows)
    && IsClaimDictionary(rows, Entered(m, pending))
    && (forall i :: 0 <= i < |rows| ==> rows[i].id == 0 && rows[i].relyingPartyId.None?)
  }

  /** A row for a pending key does not clash with the rows entered so far. */
  lemma {:induction false} PendingKeyIsNew(rows: seq<E.WsFedClaimMap>, m: map<string, Option<string>>,
                                           pending: set<string>, key: string)
    requires key in pending && EnteredAsRows(rows, m, pending)
    ensures OriginalClaimTypesDistinct(rows + [ClaimRow(key, m[key])])
  {
    forall i | 0 <= i < |rows| ensures rows[i].originalClaimType != Some(key) {
      assert rows[i].originalClaimType.value in Entered(m, pending);
    }
  }

  /** Entering a pending key extends the entered part by that one entry. */
  lemma EnterOneKey(m: map<string, Option<string>>, pending: set<string>, key: string)
    requires key in pending && pending <= m.Keys
    ensures Entered(m, pending)[key := m[key]] == Entered(m, pending - {key})
  {
  }

  /** Appending a row for one pending entry keeps the rows a dictionary of
      the entered part, now including that entry. */
  lemma {:induction false} EnterPendingKey(rows: seq<E.WsFedClaimMap>, m: map<string, Option<string>>,
                                           pending: set<string>, key: string)
    requires key in pending && EnteredAsRows(rows, m, pending)
    ensures EnteredAsRows(rows + [ClaimRow(key, m[key])], m, pending - {key})
  {
    var longer := rows + [ClaimRow(key, m[key])];
    assert longer[..|rows|] == rows;
    PendingKeyIsNew(rows, m, pending, key);
    EnterLastClaim(longer, Entered(m, pending));
    EnterOneKey(m, pending, key);
  }

  /** Once nothing is pending, the rows are exactly the dictionary's rows. */
  lemma AllEntered(rows: seq<E.WsFedClaimMap>, m: map<string, Option<string>>)
    requires EnteredAsRows(rows, m, {})
    ensures OriginalClaimTypesDistinct(rows) && ClaimsToMap(rows) == m
  {
    assert Entered(m, {}) == m;
    ClaimDictionaryUnique(rows, m, ClaimsToMap(rows));
  }

  /** The dictionary as a claim-map list, one new row per entry, in whatever
      order the entries are enumerated. */
  method ClaimRowsFromMap(m: map<string, Option<string>>) returns (rows: seq<E.WsFedClaimMap>)
    ensures OriginalClaimTypesDistinct(rows) && ClaimsToMap(rows) == m
    ensures forall i :: 0 <= i < |rows| ==> rows[i].id == 0 && rows[i].relyingPartyId.None?
  {
    rows := [];
    var pending := m.Keys;
    assert Entered(m, pending) == map[];
    while pending != {}
      invariant EnteredAsRows(rows, m, pending)
      decreases pending
    {
      var key :| key in pending;
      EnterPendingKey(rows, m, pending, key);
      rows := rows + [ClaimRow(key, m[key])];
      pending := pending - {key};
    }
    AllEntered(rows, m);
  }
}
