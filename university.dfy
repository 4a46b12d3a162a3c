/** The `UniversityPerformance` record: one root over all campaign roots,
    computed elsewhere and written back by its authority
    (`initialize_final_root`, `update_final_merkle_root`). */
module University {
  import opened Types

  /** The fields of a `UniversityPerformance` account. */
  datatype UniversityData = UniversityData(
    authority: Pubkey,
    universityId: seq<u8>,
    totalCampaigns: u32,
    createdAt: i64,
    updatedAt: i64,
    finalMerkleRoot: Bytes32)

  /** `initialize_final_root`: no checks; counter and root start at zero. */
  function InitialRoot(signer: Pubkey, universityId: seq<u8>, now: i64): (u: UniversityData)
    ensures u.authority == signer && u.universityId == universityId
    ensures u.totalCampaigns == 0 && u.finalMerkleRoot == Zeros32()
    ensures u.createdAt == now && u.updatedAt == now
  {
    UniversityData(signer, universityId, 0, now, now, Zeros32())
  }

  /** `update_final_merkle_root`: only the authority may write, and the
      write replaces the root (it does not combine it with the old one). */
  function UpdateRoot(u: UniversityData, signer: Pubkey, finalMerkleRoot: Bytes32, now: i64)
    : (r: Result<UniversityData>)
    ensures r.Err? <==> signer != u.authority
    ensures r.Err? ==> r.error == Unauthorized
    ensures r.Ok? ==> && r.value.finalMerkleRoot == finalMerkleRoot && r.value.updatedAt == now
                      && r.value.authority == u.authority && r.value.universityId == u.universityId
                      && r.value.totalCampaigns == u.totalCampaigns && r.value.createdAt == u.createdAt
  {
    if u.authority != signer then Err(Unauthorized)
    else Ok(u.(finalMerkleRoot := finalMerkleRoot, updatedAt := now))
  }

  /** Writing the same root twice leaves the same root as writing it once;
      only the update time moves on. */
  lemma UpdateIdempotent(u: UniversityData, signer: Pubkey, root: Bytes32, t1: i64, t2: i64)
    requires UpdateRoot(u, signer, root, t1).Ok?
    ensures var once := UpdateRoot(u, signer, root, t1).value;
            var twice := UpdateRoot(once, signer, root, t2);
            twice.Ok? && twice.value == once.(updatedAt := t2)
  {
  }

  /** One `update_final_merkle_root` transaction. */
  datatype Update = Update(signer: Pubkey, finalMerkleRoot: Bytes32, now: i64)

  /** The account after a history of updates; refused ones change nothing. */
  function RunUpdates(u: UniversityData, updates: seq<Update>): UniversityData
    decreases |updates|
  {
    if updates == [] then u
    else
      var r := UpdateRoot(u, updates[0].signer, updates[0].finalMerkleRoot, updates[0].now);
      RunUpdates(if r.Ok? then r.value else u, updates[1..])
  }

  /** The root of the last update signed by `authority`, or `default` if
      there is none. */
  function LastAuthorizedRoot(authority: Pubkey, updates: seq<Update>, default: Bytes32): Bytes32
    decreases |updates|
  {
    if updates == [] then default
    else
      var last := updates[|updates| - 1];
      if last.signer == authority then last.finalMerkleRoot
      else LastAuthorizedRoot(authority, updates[..|updates| - 1], default)
  }

  /** After any history the root is the last one the authority wrote, and the
      authority, the id, the campaign counter and the creation time are as
      they were. */
  lemma {:induction false} RunUpdatesLastWins(u: UniversityData, updates: seq<Update>)
    ensures var v := RunUpdates(u, updates);
            && v.finalMerkleRoot == LastAuthorizedRoot(u.authority, updates, u.finalMerkleRoot)
            && v.authority == u.authority && v.universityId == u.universityId
            && v.totalCampaigns == u.totalCampaigns && v.createdAt == u.createdAt
    decreases |updates|
  {
    if updates != [] {
      var r := UpdateRoot(u, updates[0].signer, updates[0].finalMerkleRoot, updates[0].now);
      var u' := if r.Ok? then r.value else u;
      RunUpdatesLastWins(u', updates[1..]);
      LastAuthorizedSplit(u.authority, updates, u.finalMerkleRoot);
    }
  }

  /** `LastAuthorizedRoot` read from the front: the first update sets the
      default for the rest. */
  lemma {:induction false} LastAuthorizedSplit(authority: Pubkey, updates: seq<Update>, default: Bytes32)
    requires updates != []
    ensures LastAuthorizedRoot(authority, updates, default)
            == LastAuthorizedRoot(authority, updates[1..],
                                  if updates[0].signer == authority then updates[0].finalMerkleRoot
                                  else default)
    decreases |updates|
  {
    if |updates| > 1 {
      var init := updates[..|updates| - 1];
      assert init[1..] == updates[1..][..|updates[1..]| - 1];
      assert init[0] == updates[0];
      LastAuthorizedSplit(authority, init, default);
    }
  }

  /** Nothing in the program changes `total_campaigns`: it stays zero. */
  lemma TotalCampaignsStaysZero(signer: Pubkey, universityId: seq<u8>, now: i64, updates: seq<Update>)
    ensures RunUpdates(InitialRoot(signer, universityId, now), updates).totalCampaigns == 0
  {
    RunUpdatesLastWins(InitialRoot(signer, universityId, now), updates);
  }

  /** The account itself, updated field by field. */
  class UniversityPerformance {
    var authority: Pubkey
    var universityId: seq<u8>
    var totalCampaigns: u32
    var createdAt: i64
    var updatedAt: i64
    var finalMerkleRoot: Bytes32

    function State(): UniversityData
      reads this
    {
      UniversityData(authority, universityId, totalCampaigns, createdAt, updatedAt, finalMerkleRoot)
    }

    /** `initialize_final_root`. */
    constructor InitializeFinalRoot(signer: Pubkey, universityId: seq<u8>, now: i64)
      ensures State() == InitialRoot(signer, universityId, now)
    {
      authority := signer;
      this.universityId := universityId;
      totalCampaigns := 0;
      createdAt := now;
      updatedAt := now;
      finalMerkleRoot := Zeros32();
    }

    /** `update_final_merkle_root`. */
    method UpdateFinalMerkleRoot(signer: Pubkey, finalMerkleRoot: Bytes32, now: i64)
      returns (status: Status)
      modifies this
      ensures var spec := UpdateRoot(old(State()), signer, finalMerkleRoot, now);
              && status == StatusOf(spec)
              && State() == (if spec.Ok? then spec.value else old(State()))
    {
      if authority != signer {
        return Failed(Unauthorized);
      }
      this.finalMerkleRoot := finalMerkleRoot;
      updatedAt := now;
      return Done;
    }
  }
}
