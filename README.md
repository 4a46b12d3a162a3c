# Anonymous survey program — a Dafny model

This project models the on-chain Solana (Anchor) program of an anonymous survey
system. The program keeps two kinds of record:

- A **`SurveyCampaign`**. It is created by its authority, with a campaign id, a semester, a
  campaign type (0 = course, 1 = event) and two RSA public keys. It then accepts
  batches of response commitments (32 bytes each) and encrypted responses
  (256 bytes each) from its authority. It is published at most once, and only
  after it has at least one response. Publishing stores a Merkle root that was
  computed off-chain and drops the encrypted responses; the commitments stay.
- A **`UniversityPerformance`** aggregate. It holds one 32-byte root over all
  campaign roots, which its authority overwrites.

The program also has worst-case size constants for both accounts.

The model is organised as follows:

- `types.dfy` (module `Types`) holds the machine integers `u8`, `u32` and `i64`,
  the byte arrays `[u8; 32]` and `[u8; 256]`, and the program's error codes. It
  also writes out two Rust operations: the truncating `as u32` cast and
  `checked_add` on `u32`.
- `sizing.dfy` (module `Sizing`) holds `SurveyCampaign::BASE_LEN`,
  `calculate_size_for_responses`, `calculate_size_after_publishing`,
  `UniversityPerformance::LEN` and the space the account constraints allocate.
  `BASE_LEN` is defined as the sum of the listed field widths, which is 780 bytes.
- `campaign.dfy` (module `Campaign`) has `CampaignData`, the record as a value.
  Three functions, `Create`, `SubmitBatch` and `Publish`, give the three
  instructions on that value. Each returns the new record or the error the
  transaction fails with. The class `SurveyCampaign` is the account itself. Its
  methods update its fields in place and are proved to agree with those functions.
- `history.dfy` (module `History`) covers whole sequences of instructions sent to
  one campaign. A failed transaction leaves the account unchanged. Over any such
  sequence the model proves these facts:
  - the invariant is kept;
  - commitments are only ever appended;
  - a publish succeeds at most once, and a published campaign is frozen;
  - instructions from anyone other than the authority do nothing.
- `university.dfy` (module `University`) has the aggregate record, its two
  instructions and the class `UniversityPerformance`.

The signer of an instruction is a `signer: Pubkey` parameter. `Clock::get()` is
replaced by a `now: i64` parameter. Strings are sequences of bytes, because Rust's
`len()` counts bytes.

Points of the code's behaviour worth knowing:

- `publish_campaign_results` checks the authority before the published flag. A
  second publish by someone other than the authority fails with `Unauthorized`;
  only the authority gets `CampaignAlreadyPublished` (`Campaign.PublishOnce`).
- `submit_batch_responses` checks the published flag before the authority. A
  batch from anyone on a published campaign fails with `CampaignAlreadyPublished`.
- The program stores any root the authority supplies, and that root may be all
  zeros. So the invariant states only one direction: an unpublished campaign has
  a zero root.
- The program has no single-response submission, no response cap, no Merkle
  construction and no account resize. The model adds none of these.
- The program's error names are used (`CampaignIdTooLong`, `SemesterTooLong`,
  `PublicKeyTooLong`, `InvalidCampaignType`, …). A counter overflow is the panic of
  `checked_add(..).unwrap()`. It appears as the extra code `CounterOverflow`, since
  it too aborts the transaction without changing anything.
- A comment in the source gives `BASE_LEN` as 772 bytes. The widths it lists add up
  to 780 (`Sizing.CampaignBaseLenValue`).

## Model

| member | source | states |
|---|---|---|
| `Types.TruncateU32` | blockchain/anonymous-survey/programs/anonymous-survey/src/lib.rs:74 | `len as u32` keeps the low 32 bits: the result differs from the length by a multiple of 2^32, equals it below 2^32, and never exceeds it |
| `Types.CheckedAddU32` | blockchain/anonymous-survey/programs/anonymous-survey/src/lib.rs:77-80 | the sum is returned exactly when it fits in a `u32`; otherwise the transaction aborts with the overflow |
| `Sizing.SizeForResponses` | blockchain/anonymous-survey/programs/anonymous-survey/src/lib.rs:261-263 | the size is at least the base size, grows by 32 + 256 bytes per response, and stays below the 64-bit `usize` limit for every `u32` count |
| `Sizing.SizeAfterPublishing` | blockchain/anonymous-survey/programs/anonymous-survey/src/lib.rs:266-268 | the size is at least the base size, grows by 32 bytes per response, and stays below the `usize` limit |
| `Sizing.CampaignBaseLenValue` | blockchain/anonymous-survey/programs/anonymous-survey/src/lib.rs:245-258 | the listed field widths sum to 780 bytes, not the 772 in the comment |
| `Sizing.UniversityLenValue` | blockchain/anonymous-survey/programs/anonymous-survey/src/lib.rs:276-284 | `UniversityPerformance::LEN` is 138 bytes, so its account takes 146 bytes with the discriminator |
| `Sizing.SizeFormulas` | blockchain/anonymous-survey/programs/anonymous-survey/src/lib.rs:260-268 | the size before publishing is 780 + 288·n; after publishing it is 780 + 32·n |
| `Sizing.SizesMonotone` | blockchain/anonymous-survey/programs/anonymous-survey/src/lib.rs:260-268 | both sizes are non-decreasing in the response count |
| `Sizing.PublishingShrinks` | blockchain/anonymous-survey/programs/anonymous-survey/src/lib.rs:265-268 | the size after publishing is never larger, is strictly smaller for n > 0, and the difference is exactly 256·n |
| `Sizing.InitialSpaceHoldsTen` | blockchain/anonymous-survey/programs/anonymous-survey/src/lib.rs:163 | the initial allocation is 3668 bytes; a worst-case campaign with n responses fits in it exactly when n ≤ 10 |
| `Campaign.Create` | blockchain/anonymous-survey/programs/anonymous-survey/src/lib.rs:9-46 | each failed length or type check gives its own error, in source order; creation succeeds exactly when all ceilings hold; a new record has zero responses, is unpublished, has a zero root and empty vectors, takes its metadata from the arguments and its authority from the signer, and satisfies the invariant |
| `Campaign.SubmitBatch` | blockchain/anonymous-survey/programs/anonymous-survey/src/lib.rs:48-84 | the errors come in order (published, then unauthorized, then mismatched lengths, then counter overflow); a batch is accepted exactly when all checks pass; an accepted batch is appended after the existing entries in order, adds the truncated batch length to the counter and sets `updated_at`; the identity fields do not change |
| `Campaign.Publish` | blockchain/anonymous-survey/programs/anonymous-survey/src/lib.rs:86-119 | the errors come in order (unauthorized, then already published, then no responses); on success the given root is stored as is, the campaign is published, the encrypted responses are empty, and the commitments, counter and identity fields are unchanged |
| `Campaign.SubmitBatchInvariant` | blockchain/anonymous-survey/programs/anonymous-survey/src/lib.rs:73-81 | an accepted batch keeps \|commitments\| = \|encrypted_responses\| = total_responses exactly when its length is below 2^32 |
| `Campaign.PublishInvariant` | blockchain/anonymous-survey/programs/anonymous-survey/src/lib.rs:110-116 | a successful publish keeps the invariant and leaves at least one commitment |
| `Campaign.PublishOnce` | blockchain/anonymous-survey/programs/anonymous-survey/src/lib.rs:92-102 | after a successful publish, every further publish fails: `CampaignAlreadyPublished` for the authority, `Unauthorized` for anyone else |
| `Campaign.NoSubmitAfterPublish` | blockchain/anonymous-survey/programs/anonymous-survey/src/lib.rs:55-59 | after publishing, every batch fails with `CampaignAlreadyPublished`, whoever sends it |
| `Campaign.EncodedLenWithinSize` | blockchain/anonymous-survey/programs/anonymous-survey/src/lib.rs:243-268 | a record that keeps the invariant never encodes to more bytes than the size computed for its count and phase |
| `Campaign.SurveyCampaign.Init` | blockchain/anonymous-survey/programs/anonymous-survey/src/lib.rs:30-44 | the account's fields after the handler's writes |
| `Campaign.SurveyCampaign.CreateCampaign` | blockchain/anonymous-survey/programs/anonymous-survey/src/lib.rs:9-46 | returns exactly the outcome of `Create`; on success it returns a new account whose state is the record `Create` gives and which satisfies the invariant; on failure no account is made |
| `Campaign.SurveyCampaign.SubmitBatchResponses` | blockchain/anonymous-survey/programs/anonymous-survey/src/lib.rs:48-84 | the status and the new fields are exactly those of `SubmitBatch`, and a failure changes nothing; on success the invariant is kept exactly when the batch is shorter than 2^32 entries, and a failure keeps it too |
| `Campaign.SurveyCampaign.PublishCampaignResults` | blockchain/anonymous-survey/programs/anonymous-survey/src/lib.rs:86-119 | the status and the new fields are exactly those of `Publish`; a failure changes nothing; the invariant is kept |
| `History.RunKeepsIdentity` | blockchain/anonymous-survey/programs/anonymous-survey/src/lib.rs:48-119 | no sequence of instructions changes the authority, id, semester, type, keys or creation time |
| `History.RunKeepsInvariant` | blockchain/anonymous-survey/programs/anonymous-survey/src/lib.rs:73-116 | the record invariant holds after every sequence of instructions whose batches are shorter than 2^32 |
| `History.RunAfterPublish` | blockchain/anonymous-survey/programs/anonymous-survey/src/lib.rs:55-102 | once a campaign is published, no sequence of instructions changes it, and none of them publishes again |
| `History.RunAppends` | blockchain/anonymous-survey/programs/anonymous-survey/src/lib.rs:73-80 | the final commitments are the initial ones followed by every accepted batch, in order; total_responses never decreases |
| `History.PublishedAtMostOnce` | blockchain/anonymous-survey/programs/anonymous-survey/src/lib.rs:98-112 | at most one publish succeeds in any sequence, and the campaign ends up published exactly when it already was or one publish succeeded |
| `History.RunByOthers` | blockchain/anonymous-survey/programs/anonymous-survey/src/lib.rs:61-96 | instructions signed by anyone other than the authority leave the record exactly as it was |
| `History.CreateSubmitPublish` | blockchain/anonymous-survey/programs/anonymous-survey/src/lib.rs:9-119 | create, submit a batch of three, then publish gives 3 responses, those three commitments in order, no encrypted responses, and the published given root |
| `University.InitialRoot` | blockchain/anonymous-survey/programs/anonymous-survey/src/lib.rs:140-154 | a new aggregate belongs to the signer, has the given id, a zero campaign counter, a zero root, and both timestamps set to now |
| `University.UpdateRoot` | blockchain/anonymous-survey/programs/anonymous-survey/src/lib.rs:121-138 | fails with `Unauthorized` exactly when the signer is not the authority; otherwise it replaces the root and `updated_at` and nothing else |
| `University.UpdateIdempotent` | blockchain/anonymous-survey/programs/anonymous-survey/src/lib.rs:133-135 | writing the same root twice gives the record of one write, with only `updated_at` moved on |
| `University.RunUpdatesLastWins` | blockchain/anonymous-survey/programs/anonymous-survey/src/lib.rs:121-138 | after any sequence of updates the root is the one from the last update the authority signed (overwrite, not accumulation); authority, id, counter and creation time are unchanged |
| `University.TotalCampaignsStaysZero` | blockchain/anonymous-survey/programs/anonymous-survey/src/lib.rs:148 | no instruction changes `total_campaigns`, so it stays 0 |
| `University.UniversityPerformance.InitializeFinalRoot` | blockchain/anonymous-survey/programs/anonymous-survey/src/lib.rs:140-154 | the new account's state is `InitialRoot` of the arguments |
| `University.UniversityPerformance.UpdateFinalMerkleRoot` | blockchain/anonymous-survey/programs/anonymous-survey/src/lib.rs:121-138 | the status and the new fields are exactly those of `UpdateRoot`; an unauthorized call changes nothing |

## Left out

- Anchor account plumbing is not modelled: the `#[derive(Accounts)]` contexts, PDA
  seeds and bumps, payer and rent, the system program and `declare_id!`. The
  signer is a plain `Pubkey` parameter. The runtime also limits each PDA seed to
  32 bytes, which in practice caps `campaign_id` and `university_id`; that limit is
  not modelled either.
- `Clock::get()` is a `now` parameter. The case where the syscall fails is not
  modelled.
- Merkle roots are opaque 32-byte inputs. The program does not compute them: they
  are computed off-chain.
- RSA encryption and blind signatures are not modelled. Keys and encrypted
  responses are opaque bytes.
- Borsh serialisation is covered only by its length rule (`Campaign.EncodedLen`).
  The account is allocated once with 3668 bytes and never resized. Anchor's
  failure to write back an account whose contents outgrow that allocation is not
  modelled; `Sizing.InitialSpaceHoldsTen` states how much the allocation holds.
- `initialize_final_root` checks nothing about `university_id`. The model accepts
  any id, as the code does. The 50 bytes that `UniversityPerformance::LEN`
  reserves for the id are not checked by the program; the runtime's 32-byte seed
  limit on `university_id.as_bytes()` keeps the id under 32 bytes.
- History.RunKeepsInvariant: assumes that every batch is shorter than 2^32
  entries. The source's `len() as u32` would truncate a longer batch, and
  `Campaign.SubmitBatchInvariant` shows that the counter and the vectors then
  disagree. No Solana transaction can carry such a batch.
- Concurrency is not modelled. The runtime serialises transactions on one account,
  and failed transactions are rolled back; the model treats each instruction as an
  atomic step.
- `data/generate_university_data.py` is not modelled. It generates random test data
  and writes CSV files, which is I/O only.
