/** Machine types, fixed-width byte arrays and the program's error codes. */
module Types {

  /** Rust `u8`. */
  newtype u8 = x: int | 0 <= x < 0x100

  const U32_LIMIT: int := 0x1_0000_0000

  /** Rust `u32`. */
  newtype u32 = x: int | 0 <= x < 0x1_0000_0000

  /** Rust `i64`, the type of `Clock::unix_timestamp`. */
  newtype i64 = x: int | -0x8000_0000_0000_0000 <= x < 0x8000_0000_0000_0000

  /** `[u8; 32]`: a public key, a commitment or a Merkle root. */
  type Bytes32 = s: seq<u8> | |s| == 32 witness Zeros32()

  /** `[u8; 256]`: one RSA-2048 encrypted response. */
  type Bytes256 = s: seq<u8> | |s| == 256 witness seq(256, _ => 0)

  /** A Solana `Pubkey`; only compared for equality. */
  type Pubkey = Bytes32

  /** `[0; 32]`, the root stored before anything is published. */
  function Zeros32(): (z: seq<u8>)
    ensures |z| == 32 && forall i :: 0 <= i < |z| ==> z[i] == 0
  {
    seq(32, _ => 0)
  }

  /** `CampaignError` of the program, plus `CounterOverflow` for the panic of
      `checked_add(..).unwrap()`, which aborts the transaction like an error does. */
  datatype Error =
    | CampaignAlreadyPublished
    | CampaignIdTooLong
    | SemesterTooLong
    | InvalidCampaignType
    | PublicKeyTooLong
    | Unauthorized
    | NoResponsesSubmitted
    | MismatchedDataLength
    | CounterOverflow

  /** The value of an instruction: `Ok(v)` or the error the transaction fails with. */
  datatype Result<+T> = Ok(value: T) | Err(error: Error)

  /** What an instruction handler returns to the runtime: `Ok(())` or an error. */
  datatype Status = Done | Failed(error: Error)

  function StatusOf<T>(r: Result<T>): (s: Status)
    ensures s.Done? <==> r.Ok?
    ensures s.Failed? ==> s.error == r.error
  {
    match r
    case Ok(_) => Done
    case Err(e) => Failed(e)
  }

  /** `n as u32` in Rust: keeps the low 32 bits. */
  function TruncateU32(n: nat): (r: u32)
    ensures (n - r as int) % U32_LIMIT == 0
    ensures n < U32_LIMIT ==> r as int == n
    ensures r as int <= n
  {
    (n % U32_LIMIT) as u32
  }

  /** `a.checked_add(b)` on `u32`: `None` exactly when the sum does not fit. */
  function CheckedAddU32(a: u32, b: u32): (r: Result<u32>)
    ensures r.Ok? <==> a as int + b as int < U32_LIMIT
    ensures r.Ok? ==> r.value as int == a as int + b as int
    ensures r.Err? ==> r.error == CounterOverflow
  {
    if a as int + b as int < U32_LIMIT then Ok((a as int + b as int) as u32) else Err(CounterOverflow)
  }
}
