/** Worst-case account sizes of the two record kinds, field by field.
    A `String` or `Vec` is a 4-byte length prefix followed by its
    contents; the maximum content lengths are the ones `create_campaign`
    enforces (and 50 for the university id). */
module Sizing {
  import opened Types

  const PUBKEY_LEN: nat := 32
  const LEN_PREFIX: nat := 4
  const MAX_CAMPAIGN_ID_LEN: nat := 50
  const MAX_SEMESTER_LEN: nat := 20
  const MAX_PUBLIC_KEY_LEN: nat := 300
  const MAX_UNIVERSITY_ID_LEN: nat := 50
  const U8_LEN: nat := 1
  const U32_LEN: nat := 4
  const I64_LEN: nat := 8
  const BOOL_LEN: nat := 1
  const ROOT_LEN: nat := 32
  const COMMITMENT_LEN: nat := 32
  const ENCRYPTED_RESPONSE_LEN: nat := 256
  /** Anchor's account discriminator, added to every allocation. */
  const DISCRIMINATOR_LEN: nat := 8
  /** Number of responses `CreateCampaign` pre-allocates room for. */
  const PREALLOCATED_RESPONSES: nat := 10
  /** `usize` on the Solana target is 64 bits wide. */
  const USIZE_LIMIT: int := 0x1_0000_0000_0000_0000

  /** `SurveyCampaign::BASE_LEN` (also `SurveyCampaign::LEN`): the sum of the
      listed widths, in declaration order of the fields. */
  const CAMPAIGN_BASE_LEN: nat :=
    PUBKEY_LEN                               // authority
    + LEN_PREFIX + MAX_CAMPAIGN_ID_LEN       // campaign_id
    + LEN_PREFIX + MAX_SEMESTER_LEN          // semester
    + U8_LEN                                 // campaign_type
    + U32_LEN                                // total_responses
    + I64_LEN                                // created_at
    + I64_LEN                                // updated_at
    + BOOL_LEN                               // is_published
    + ROOT_LEN                               // merkle_root
    + LEN_PREFIX                             // encrypted_responses header
    + LEN_PREFIX                             // commitments header
    + LEN_PREFIX + MAX_PUBLIC_KEY_LEN        // blind_signature_public_key
    + LEN_PREFIX + MAX_PUBLIC_KEY_LEN        // encryption_public_key

  /** `UniversityPerformance::BASE_LEN` (also `UniversityPerformance::LEN`). */
  const UNIVERSITY_LEN: nat :=
    PUBKEY_LEN                               // authority
    + LEN_PREFIX + MAX_UNIVERSITY_ID_LEN     // university_id
    + U32_LEN                                // total_campaigns
    + I64_LEN                                // created_at
    + I64_LEN                                // updated_at
    + ROOT_LEN                               // final_merkle_root

  /** `calculate_size_for_responses`: room for `n` commitments and `n`
      encrypted responses. The `usize` arithmetic cannot overflow. */
  function SizeForResponses(n: u32): (size: nat)
    ensures CAMPAIGN_BASE_LEN <= size < USIZE_LIMIT
    ensures size - CAMPAIGN_BASE_LEN == n as int * (COMMITMENT_LEN + ENCRYPTED_RESPONSE_LEN)
  {
    CAMPAIGN_BASE_LEN + n as nat * (ENCRYPTED_RESPONSE_LEN + COMMITMENT_LEN)
  }

  /** `calculate_size_after_publishing`: room for `n` commitments only. */
  function SizeAfterPublishing(n: u32): (size: nat)
    ensures CAMPAIGN_BASE_LEN <= size < USIZE_LIMIT
    ensures size - CAMPAIGN_BASE_LEN == n as int * COMMITMENT_LEN
  {
    CAMPAIGN_BASE_LEN + n as nat * COMMITMENT_LEN
  }

  /** The `space` `CreateCampaign` allocates for a new campaign account. */
  function InitialCampaignSpace(): nat
  {
    DISCRIMINATOR_LEN + SizeForResponses(PREALLOCATED_RESPONSES as u32)
  }

  /** The `space` `InitializeFinalRoot` allocates. */
  function UniversitySpace(): nat
  {
    DISCRIMINATOR_LEN + UNIVERSITY_LEN
  }

  /** The listed widths add up to 780 bytes (the source's comment says 772). */
  lemma CampaignBaseLenValue()
    ensures CAMPAIGN_BASE_LEN == 780
  {
  }

  lemma UniversityLenValue()
    ensures UNIVERSITY_LEN == 138
    ensures UniversitySpace() == 146
  {
  }

  /** Each response costs 288 bytes before publishing and 32 after. */
  lemma SizeFormulas(n: u32)
    ensures SizeForResponses(n) == 780 + 288 * n as int
    ensures SizeAfterPublishing(n) == 780 + 32 * n as int
  {
  }

  lemma SizesMonotone(m: u32, n: u32)
    requires m <= n
    ensures SizeForResponses(m) <= SizeForResponses(n)
    ensures SizeAfterPublishing(m) <= SizeAfterPublishing(n)
  {
  }

  /** Publishing frees exactly the encrypted responses' 256 bytes each. */
  lemma PublishingShrinks(n: u32)
    ensures SizeAfterPublishing(n) <= SizeForResponses(n)
    ensures n > 0 ==> SizeAfterPublishing(n) < SizeForResponses(n)
    ensures SizeForResponses(n) - SizeAfterPublishing(n) == ENCRYPTED_RESPONSE_LEN * n as int
  {
  }

  /** The initial allocation is 3668 bytes, and a worst-case campaign with
      `n` responses fits in it exactly when `n` is at most 10. */
  lemma InitialSpaceHoldsTen(n: u32)
    ensures InitialCampaignSpace() == 3668
    ensures DISCRIMINATOR_LEN + SizeForResponses(n) <= InitialCampaignSpace() <==> n <= 10
  {
  }
}
