/** The `SurveyCampaign` record and its three instructions:
    `create_campaign`, `submit_batch_responses`, `publish_campaign_results`.

    `CampaignData` is the record's value; `Create`, `SubmitBatch` and
    `Publish` are the instructions as functions of it, returning either the
    new value or the error the transaction fails with (a failed transaction
    changes nothing). The class `SurveyCampaign` is the account itself, whose
    methods update its fields in place and are proved against those
    functions. */
module Campaign {
  import opened Types
  import opened Sizing

  /** The fields of a `SurveyCampaign` account. Strings are their UTF-8 bytes:
      Rust's `len()` counts bytes. */
  datatype CampaignData = CampaignData(
    authority: Pubkey,
    campaignId: seq<u8>,
    semester: seq<u8>,
    campaignType: u8,
    totalResponses: u32,
    createdAt: i64,
    updatedAt: i64,
    isPublished: bool,
    merkleRoot: Bytes32,
    encryptedResponses: seq<Bytes256>,
    commitments: seq<Bytes32>,
    blindSignaturePublicKey: seq<u8>,
    encryptionPublicKey: seq<u8>)

  /** The length ceilings `create_campaign` enforces. */
  predicate MetadataFits(campaignId: seq<u8>, semester: seq<u8>, campaignType: u8,
                         blindSignaturePublicKey: seq<u8>, encryptionPublicKey: seq<u8>)
  {
    && |campaignId| <= MAX_CAMPAIGN_ID_LEN
    && |semester| <= MAX_SEMESTER_LEN
    && campaignType <= 1
    && |blindSignaturePublicKey| <= MAX_PUBLIC_KEY_LEN
    && |encryptionPublicKey| <= MAX_PUBLIC_KEY_LEN
  }

  /** The record invariant: the ceilings hold, the counter counts the
      commitments, the encrypted responses pair up with the commitments until
      publishing and are gone afterwards, and the root is zero until then. */
  predicate Invariant(c: CampaignData)
  {
    && MetadataFits(c.campaignId, c.semester, c.campaignType,
                    c.blindSignaturePublicKey, c.encryptionPublicKey)
    && c.totalResponses as int == |c.commitments|
    && (if c.isPublished
        then |c.encryptedResponses| == 0 && c.totalResponses > 0
        else |c.encryptedResponses| == |c.commitments| && c.merkleRoot == Zeros32())
  }

  /** Everything `create_campaign` sets that no later instruction touches. */
  predicate SameIdentity(c: CampaignData, d: CampaignData)
  {
    && d.authority == c.authority
    && d.campaignId == c.campaignId
    && d.semester == c.semester
    && d.campaignType == c.campaignType
    && d.createdAt == c.createdAt
    && d.blindSignaturePublicKey == c.blindSignaturePublicKey
    && d.encryptionPublicKey == c.encryptionPublicKey
  }

  /** `create_campaign`: the checks in source order, then a fresh record
      owned by the signer. */
  function Create(signer: Pubkey, campaignId: seq<u8>, semester: seq<u8>, campaignType: u8,
                  blindSignaturePublicKey: seq<u8>, encryptionPublicKey: seq<u8>, now: i64)
    : (r: Result<CampaignData>)
    ensures |campaignId| > 50 ==> r == Err(CampaignIdTooLong)
    ensures |campaignId| <= 50 && |semester| > 20 ==> r == Err(SemesterTooLong)
    ensures |campaignId| <= 50 && |semester| <= 20 && campaignType > 1 ==> r == Err(InvalidCampaignType)
    ensures (&& |campaignId| <= 50 && |semester| <= 20 && campaignType <= 1
             && (|blindSignaturePublicKey| > 300 || |encryptionPublicKey| > 300))
            ==> r == Err(PublicKeyTooLong)
    ensures r.Ok? <==> MetadataFits(campaignId, semester, campaignType,
                                    blindSignaturePublicKey, encryptionPublicKey)
    ensures r.Ok? ==> Invariant(r.value)
    ensures r.Ok? ==> && r.value.authority == signer
                      && r.value.campaignId == campaignId && r.value.semester == semester
                      && r.value.campaignType == campaignType
                      && r.value.blindSignaturePublicKey == blindSignaturePublicKey
                      && r.value.encryptionPublicKey == encryptionPublicKey
                      && r.value.totalResponses == 0 && !r.value.isPublished
                      && r.value.merkleRoot == Zeros32()
                      && r.value.commitments == [] && r.value.encryptedResponses == []
                      && r.value.createdAt == now && r.value.updatedAt == now
  {
    if |campaignId| > MAX_CAMPAIGN_ID_LEN then Err(CampaignIdTooLong)
    else if |semester| > MAX_SEMESTER_LEN then Err(SemesterTooLong)
    else if campaignType > 1 then Err(InvalidCampaignType)
    else if |blindSignaturePublicKey| > MAX_PUBLIC_KEY_LEN then Err(PublicKeyTooLong)
    else if |encryptionPublicKey| > MAX_PUBLIC_KEY_LEN then Err(PublicKeyTooLong)
    else Ok(CampaignData(signer, campaignId, semester, campaignType, 0, now, now, false,
                         Zeros32(), [], [], blindSignaturePublicKey, encryptionPublicKey))
  }

  /** `submit_batch_responses`: the checks in source order, then an append of
      both batches and `total_responses.checked_add(len as u32).unwrap()`. */
  function SubmitBatch(c: CampaignData, signer: Pubkey, commitments: seq<Bytes32>,
                       encryptedResponses: seq<Bytes256>, now: i64)
    : (r: Result<CampaignData>)
    ensures c.isPublished ==> r == Err(CampaignAlreadyPublished)
    ensures !c.isPublished && signer != c.authority ==> r == Err(Unauthorized)
    ensures !c.isPublished && signer == c.authority && |commitments| != |encryptedResponses|
            ==> r == Err(MismatchedDataLength)
    ensures r.Err? && !c.isPublished && signer == c.authority && |commitments| == |encryptedResponses|
            ==> r.error == CounterOverflow
    ensures r.Ok? <==> && !c.isPublished && signer == c.authority
                       && |commitments| == |encryptedResponses|
                       && c.totalResponses as int + |encryptedResponses| % U32_LIMIT < U32_LIMIT
    ensures r.Ok? ==> && SameIdentity(c, r.value)
                      && r.value.commitments == c.commitments + commitments
                      && r.value.encryptedResponses == c.encryptedResponses + encryptedResponses
                      && r.value.totalResponses as int == c.totalResponses as int + |encryptedResponses| % U32_LIMIT
                      && r.value.updatedAt == now
                      && !r.value.isPublished && r.value.merkleRoot == c.merkleRoot
  {
    if c.isPublished then Err(CampaignAlreadyPublished)
    else if c.authority != signer then Err(Unauthorized)
    else if |commitments| != |encryptedResponses| then Err(MismatchedDataLength)
    else
      var responseCount := TruncateU32(|encryptedResponses|);
      match CheckedAddU32(c.totalResponses, responseCount)
      case Err(e) => Err(e)
      case Ok(total) =>
        Ok(c.(commitments := c.commitments + commitments,
              encryptedResponses := c.encryptedResponses + encryptedResponses,
              totalResponses := total,
              updatedAt := now))
  }

  /** `publish_campaign_results`: the checks in source order, then the
      caller's root is stored as given and the encrypted responses cleared. */
  function Publish(c: CampaignData, signer: Pubkey, merkleRoot: Bytes32, now: i64)
    : (r: Result<CampaignData>)
    ensures signer != c.authority ==> r == Err(Unauthorized)
    ensures signer == c.authority && c.isPublished ==> r == Err(CampaignAlreadyPublished)
    ensures signer == c.authority && !c.isPublished && c.totalResponses == 0
            ==> r == Err(NoResponsesSubmitted)
    ensures r.Ok? <==> signer == c.authority && !c.isPublished && c.totalResponses > 0
    ensures r.Ok? ==> && SameIdentity(c, r.value)
                      && r.value.isPublished && r.value.merkleRoot == merkleRoot
                      && r.value.encryptedResponses == []
                      && r.value.commitments == c.commitments
                      && r.value.totalResponses == c.totalResponses
                      && r.value.updatedAt == now
  {
    if c.authority != signer then Err(Unauthorized)
    else if c.isPublished then Err(CampaignAlreadyPublished)
    else if c.totalResponses == 0 then Err(NoResponsesSubmitted)
    else Ok(c.(merkleRoot := merkleRoot, isPublished := true, updatedAt := now,
               encryptedResponses := []))
  }

  /** A successful batch keeps the invariant exactly when the batch length
      survives the `as u32` cast. */
  lemma SubmitBatchInvariant(c: CampaignData, signer: Pubkey, commitments: seq<Bytes32>,
                             encryptedResponses: seq<Bytes256>, now: i64)
    requires Invariant(c)
    requires SubmitBatch(c, signer, commitments, encryptedResponses, now).Ok?
    ensures Invariant(SubmitBatch(c, signer, commitments, encryptedResponses, now).value)
            <==> |encryptedResponses| < U32_LIMIT
  {
  }

  lemma PublishInvariant(c: CampaignData, signer: Pubkey, merkleRoot: Bytes32, now: i64)
    requires Invariant(c)
    requires Publish(c, signer, merkleRoot, now).Ok?
    ensures Invariant(Publish(c, signer, merkleRoot, now).value)
    ensures |Publish(c, signer, merkleRoot, now).value.commitments| > 0
  {
  }

  /** Publishing can succeed only once: whoever calls it again is refused. */
  lemma PublishOnce(c: CampaignData, signer: Pubkey, root: Bytes32, now: i64,
                    signer': Pubkey, root': Bytes32, now': i64)
    requires Publish(c, signer, root, now).Ok?
    ensures Publish(Publish(c, signer, root, now).value, signer', root', now').Err?
    ensures signer' == c.authority ==>
              Publish(Publish(c, signer, root, now).value, signer', root', now').error == CampaignAlreadyPublished
    ensures signer' != c.authority ==>
              Publish(Publish(c, signer, root, now).value, signer', root', now').error == Unauthorized
  {
  }

  /** No batch is accepted after publishing, whoever sends it. */
  lemma NoSubmitAfterPublish(c: CampaignData, signer: Pubkey, root: Bytes32, now: i64,
                             signer': Pubkey, commitments: seq<Bytes32>,
                             encryptedResponses: seq<Bytes256>, now': i64)
    requires Publish(c, signer, root, now).Ok?
    ensures SubmitBatch(Publish(c, signer, root, now).value, signer', commitments, encryptedResponses, now')
            == Err(CampaignAlreadyPublished)
  {
  }

  /** The Borsh-encoded length of a record as it is: a 4-byte prefix before
      each string and vector, fixed widths for everything else. */
  function EncodedLen(c: CampaignData): nat
  {
    PUBKEY_LEN
    + LEN_PREFIX + |c.campaignId|
    + LEN_PREFIX + |c.semester|
    + U8_LEN + U32_LEN + I64_LEN + I64_LEN + BOOL_LEN + ROOT_LEN
    + LEN_PREFIX + ENCRYPTED_RESPONSE_LEN * |c.encryptedResponses|
    + LEN_PREFIX + COMMITMENT_LEN * |c.commitments|
    + LEN_PREFIX + |c.blindSignaturePublicKey|
    + LEN_PREFIX + |c.encryptionPublicKey|
  }

  /** The sizing functions are upper bounds: a record that keeps the
      invariant never encodes to more than the size computed for its
      response count and phase. */
  lemma EncodedLenWithinSize(c: CampaignData)
    requires Invariant(c)
    ensures !c.isPublished ==> EncodedLen(c) <= SizeForResponses(c.totalResponses)
    ensures c.isPublished ==> EncodedLen(c) <= SizeAfterPublishing(c.totalResponses)
  {
  }

  /** The account itself: `SurveyCampaign`, updated field by field. */
  class SurveyCampaign {
    var authority: Pubkey
    var campaignId: seq<u8>
    var semester: seq<u8>
    var campaignType: u8
    var totalResponses: u32
    var createdAt: i64
    var updatedAt: i64
    var isPublished: bool
    var merkleRoot: Bytes32
    var encryptedResponses: seq<Bytes256>
    var commitments: seq<Bytes32>
    var blindSignaturePublicKey: seq<u8>
    var encryptionPublicKey: seq<u8>

    /** The account's fields as a value. */
    function State(): CampaignData
      reads this
    {
      CampaignData(authority, campaignId, semester, campaignType, totalResponses,
                   createdAt, updatedAt, isPublished, merkleRoot, encryptedResponses,
                   commitments, blindSignaturePublicKey, encryptionPublicKey)
    }

    ghost predicate Valid()
      reads this
    {
      Invariant(State())
    }

    /** The field writes of `create_campaign` on a freshly allocated account. */
    constructor Init(signer: Pubkey, campaignId: seq<u8>, semester: seq<u8>, campaignType: u8,
                     blindSignaturePublicKey: seq<u8>, encryptionPublicKey: seq<u8>, now: i64)
      ensures State() == CampaignData(signer, campaignId, semester, campaignType, 0, now, now,
                                      false, Zeros32(), [], [],
                                      blindSignaturePublicKey, encryptionPublicKey)
    {
      authority := signer;
      this.campaignId := campaignId;
      this.semester := semester;
      this.campaignType := campaignType;
      totalResponses := 0;
      createdAt := now;
      updatedAt := now;
      isPublished := false;
      merkleRoot := Zeros32();
      encryptedResponses := [];
      commitments := [];
      this.blindSignaturePublicKey := blindSignaturePublicKey;
      this.encryptionPublicKey := encryptionPublicKey;
    }

    /** `create_campaign`: a new account on success, none on failure. */
    static method CreateCampaign(signer: Pubkey, campaignId: seq<u8>, semester: seq<u8>,
                                 campaignType: u8, blindSignaturePublicKey: seq<u8>,
                                 encryptionPublicKey: seq<u8>, now: i64)
      returns (r: Result<SurveyCampaign>)
      ensures var spec := Create(signer, campaignId, semester, campaignType,
                                 blindSignaturePublicKey, encryptionPublicKey, now);
              && (r.Ok? <==> spec.Ok?)
              && (r.Err? ==> r.error == spec.error)
              && (r.Ok? ==> fresh(r.value) && r.value.State() == spec.value && r.value.Valid())
    {
      if |campaignId| > MAX_CAMPAIGN_ID_LEN {
        return Err(CampaignIdTooLong);
      }
      if |semester| > MAX_SEMESTER_LEN {
        return Err(SemesterTooLong);
      }
      if campaignType > 1 {
        return Err(InvalidCampaignType);
      }
      if |blindSignaturePublicKey| > MAX_PUBLIC_KEY_LEN {
        return Err(PublicKeyTooLong);
      }
      if |encryptionPublicKey| > MAX_PUBLIC_KEY_LEN {
        return Err(PublicKeyTooLong);
      }
      var campaign := new SurveyCampaign.Init(signer, campaignId, semester, campaignType,
                                              blindSignaturePublicKey, encryptionPublicKey, now);
      return Ok(campaign);
    }

    /** `submit_batch_responses`. */
    method SubmitBatchResponses(signer: Pubkey, commitments: seq<Bytes32>,
                                encryptedResponses: seq<Bytes256>, now: i64)
      returns (status: Status)
      modifies this
      ensures var spec := SubmitBatch(old(State()), signer, commitments, encryptedResponses, now);
              && status == StatusOf(spec)
              && State() == (if spec.Ok? then spec.value else old(State()))
      ensures old(Valid()) && status.Done? ==> (Valid() <==> |encryptedResponses| < U32_LIMIT)
      ensures old(Valid()) && status.Failed? ==> Valid()
    {
      if isPublished {
        return Failed(CampaignAlreadyPublished);
      }
      if authority != signer {
        return Failed(Unauthorized);
      }
      if |commitments| != |encryptedResponses| {
        return Failed(MismatchedDataLength);
      }
      var responseCount := TruncateU32(|encryptedResponses|);
      if totalResponses as int + responseCount as int >= U32_LIMIT {
        return Failed(CounterOverflow);
      }
      this.commitments := this.commitments + commitments;
      this.encryptedResponses := this.encryptedResponses + encryptedResponses;
      totalResponses := (totalResponses as int + responseCount as int) as u32;
      updatedAt := now;
      return Done;
    }

    /** `publish_campaign_results`. */
    method PublishCampaignResults(signer: Pubkey, merkleRoot: Bytes32, now: i64)
      returns (status: Status)
      modifies this
      ensures var spec := Publish(old(State()), signer, merkleRoot, now);
              && status == StatusOf(spec)
              && State() == (if spec.Ok? then spec.value else old(State()))
      ensures old(Valid()) ==> Valid()
    {
      if authority != signer {
        return Failed(Unauthorized);
      }
      if isPublished {
        return Failed(CampaignAlreadyPublished);
      }
      if totalResponses == 0 {
        return Failed(NoResponsesSubmitted);
      }
      this.merkleRoot := merkleRoot;
      isPublished := true;
      updatedAt := now;
      encryptedResponses := [];
      return Done;
    }
  }
}
