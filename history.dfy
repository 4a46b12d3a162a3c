/** Sequences of instructions against one campaign. Every transaction is
    atomic: one that fails leaves the account as it was, so a history is the
    left fold of the instructions, each either applied or ignored. */
module History {
  import opened Types
  import opened Campaign

  /** An instruction sent to an existing campaign account. */
  datatype Instruction =
    | SubmitBatchResponses(signer: Pubkey, commitments: seq<Bytes32>,
                           encryptedResponses: seq<Bytes256>, now: i64)
    | PublishCampaignResults(signer: Pubkey, merkleRoot: Bytes32, now: i64)

  function Apply(c: CampaignData, ins: Instruction): Result<CampaignData>
  {
    match ins
    case SubmitBatchResponses(signer, commitments, encryptedResponses, now) =>
      SubmitBatch(c, signer, commitments, encryptedResponses, now)
    case PublishCampaignResults(signer, merkleRoot, now) =>
      Publish(c, signer, merkleRoot, now)
  }

  /** The account after one transaction. */
  function Step(c: CampaignData, ins: Instruction): CampaignData
  {
    var r := Apply(c, ins);
    if r.Ok? then r.value else c
  }

  /** The account after a whole history, in order. */
  function Run(c: CampaignData, trace: seq<Instruction>): CampaignData
    decreases |trace|
  {
    if trace == [] then c else Run(Step(c, trace[0]), trace[1..])
  }

  /** The commitments of the accepted batches, in the order they were sent. */
  function Accepted(c: CampaignData, trace: seq<Instruction>): seq<Bytes32>
    decreases |trace|
  {
    if trace == [] then []
    else
      var first := if trace[0].SubmitBatchResponses? && Apply(c, trace[0]).Ok?
                   then trace[0].commitments else [];
      first + Accepted(Step(c, trace[0]), trace[1..])
  }

  /** How many publish instructions of the history succeed. */
  function Publications(c: CampaignData, trace: seq<Instruction>): nat
    decreases |trace|
  {
    if trace == [] then 0
    else
      (if trace[0].PublishCampaignResults? && Apply(c, trace[0]).Ok? then 1 else 0)
      + Publications(Step(c, trace[0]), trace[1..])
  }

  /** No batch in the history is so long that `len() as u32` wraps. */
  predicate BatchesFit(trace: seq<Instruction>)
  {
    forall i :: 0 <= i < |trace| && trace[i].SubmitBatchResponses? ==>
      |trace[i].encryptedResponses| < U32_LIMIT
  }

  /** The authority, the identifying metadata, the keys and the creation time
      never change. */
  lemma {:induction false} RunKeepsIdentity(c: CampaignData, trace: seq<Instruction>)
    ensures SameIdentity(c, Run(c, trace))
    decreases |trace|
  {
    if trace != [] {
      RunKeepsIdentity(Step(c, trace[0]), trace[1..]);
    }
  }

  /** The invariant of the record holds after every history. */
  lemma {:induction false} RunKeepsInvariant(c: CampaignData, trace: seq<Instruction>)
    requires Invariant(c)
    requires BatchesFit(trace)
    ensures Invariant(Run(c, trace))
    decreases |trace|
  {
    if trace != [] {
      assert BatchesFit(trace[1..]) by {
        forall i | 0 <= i < |trace[1..]| && trace[1..][i].SubmitBatchResponses?
          ensures |trace[1..][i].encryptedResponses| < U32_LIMIT
        {
          assert trace[1..][i] == trace[i + 1];
        }
      }
      RunKeepsInvariant(Step(c, trace[0]), trace[1..]) by {
        match trace[0]
        case SubmitBatchResponses(signer, commitments, encryptedResponses, now) =>
          if Apply(c, trace[0]).Ok? {
            SubmitBatchInvariant(c, signer, commitments, encryptedResponses, now);
          }
        case PublishCampaignResults(signer, merkleRoot, now) =>
          if Apply(c, trace[0]).Ok? {
            PublishInvariant(c, signer, merkleRoot, now);
          }
      }
    }
  }

  /** A published campaign is frozen: no instruction changes it again. */
  lemma {:induction false} RunAfterPublish(c: CampaignData, trace: seq<Instruction>)
    requires c.isPublished
    ensures Run(c, trace) == c
    ensures Publications(c, trace) == 0
    decreases |trace|
  {
    if trace != [] {
      assert Step(c, trace[0]) == c;
      RunAfterPublish(c, trace[1..]);
    }
  }

  /** Commitments are append-only: the final list is the initial one followed
      by every accepted batch, in order; the counter never decreases. */
  lemma {:induction false} RunAppends(c: CampaignData, trace: seq<Instruction>)
    ensures Run(c, trace).commitments == c.commitments + Accepted(c, trace)
    ensures c.totalResponses <= Run(c, trace).totalResponses
    decreases |trace|
  {
    if trace != [] {
      var d := Step(c, trace[0]);
      RunAppends(d, trace[1..]);
      var first := if trace[0].SubmitBatchResponses? && Apply(c, trace[0]).Ok?
                   then trace[0].commitments else [];
      assert d.commitments == c.commitments + first;
      assert c.commitments + Accepted(c, trace)
             == c.commitments + (first + Accepted(d, trace[1..]));
      assert c.commitments + (first + Accepted(d, trace[1..]))
             == (c.commitments + first) + Accepted(d, trace[1..]);
    }
  }

  /** A campaign is published at most once in any history, and it ends up
      published exactly when it was already or one publication succeeded. */
  lemma {:induction false} PublishedAtMostOnce(c: CampaignData, trace: seq<Instruction>)
    ensures Publications(c, trace) <= 1
    ensures Run(c, trace).isPublished <==> c.isPublished || Publications(c, trace) == 1
    ensures c.isPublished ==> Publications(c, trace) == 0
    decreases |trace|
  {
    if c.isPublished {
      RunAfterPublish(c, trace);
    } else if trace != [] {
      var d := Step(c, trace[0]);
      PublishedAtMostOnce(d, trace[1..]);
      if trace[0].PublishCampaignResults? && Apply(c, trace[0]).Ok? {
        RunAfterPublish(d, trace[1..]);
      }
    }
  }

  /** Instructions signed by anyone but the authority change nothing. */
  lemma {:induction false} RunByOthers(c: CampaignData, trace: seq<Instruction>)
    requires forall i :: 0 <= i < |trace| ==> trace[i].signer != c.authority
    ensures Run(c, trace) == c
    decreases |trace|
  {
    if trace != [] {
      assert trace[0].signer != c.authority;
      assert Step(c, trace[0]) == c;
      assert forall i :: 0 <= i < |trace[1..]| ==> trace[1..][i] == trace[i + 1];
      RunByOthers(c, trace[1..]);
    }
  }

  /** The campaign's life end to end: create it, submit one batch of three,
      publish a root computed elsewhere. */
  lemma CreateSubmitPublish(authority: Pubkey, campaignId: seq<u8>, semester: seq<u8>,
                            campaignType: u8, blindKey: seq<u8>, encryptionKey: seq<u8>,
                            c1: Bytes32, c2: Bytes32, c3: Bytes32,
                            e1: Bytes256, e2: Bytes256, e3: Bytes256,
                            root: Bytes32, t0: i64, t1: i64, t2: i64)
    requires MetadataFits(campaignId, semester, campaignType, blindKey, encryptionKey)
    ensures var created := Create(authority, campaignId, semester, campaignType,
                                  blindKey, encryptionKey, t0).value;
            var trace := [SubmitBatchResponses(authority, [c1, c2, c3], [e1, e2, e3], t1),
                          PublishCampaignResults(authority, root, t2)];
            var final := Run(created, trace);
            && final.totalResponses == 3
            && final.commitments == [c1, c2, c3]
            && final.encryptedResponses == []
            && final.isPublished && final.merkleRoot == root
            && final.updatedAt == t2 && final.createdAt == t0
  {
    var created := Create(authority, campaignId, semester, campaignType,
                          blindKey, encryptionKey, t0).value;
    var trace := [SubmitBatchResponses(authority, [c1, c2, c3], [e1, e2, e3], t1),
                  PublishCampaignResults(authority, root, t2)];
    var mid := Step(created, trace[0]);
    assert mid.totalResponses == 3;
    assert Run(created, trace) == Run(mid, trace[1..]);
    assert Run(mid, trace[1..]) == Run(Step(mid, trace[1]), []);
  }
}
