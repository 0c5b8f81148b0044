/**
 Blocks, claims and the numbers the ledger fixes. A hash is the integer its bytes denote; the hash
 functions and signature verification are supplied by an `Oracle`, so every theorem holds for each.
 */
module LedgerTypes {
  import opened Prelude
  import opened Difficulty
  import opened Sorting

  const MAX_TXS_PER_BLOCK: nat := 64
  const MAX_BLOCK_BYTES: nat := 16 * 1024
  const GENESIS_TIMESTAMP: nat := 1_750_000_000
  const ANCHOR_MAX_AGE_BLOCKS: nat := 144
  const MAX_FUTURE_DRIFT_SECS: nat := 2 * 60 * 60
  const MEDIAN_TIME_PAST_WINDOW: nat := 11
  const MIN_USERNAME_LEN: nat := 5
  const MAX_USERNAME_LEN: nat := 32
  const CLAIM_DOMAIN_TAG_LEN: nat := 26
  const HEADER_LEN: nat := 1 + 8 + 32 + 8 + 32 + 4 + 8 + 32
  const SIGNATURE_LEN: nat := 64

  type Hash = nat

  /** `Hash32::ZERO`, which no block hashes to. */
  const ZERO: Hash := 0

  type Username = Bytes

  /** Every field of a transaction that its canonical bytes, hence its id and signature, cover. */
  datatype Claim = Claim(
    username: Username, owner: nat, heightHint: nat, anchor: Hash, nonce: nat, signature: Bytes)

  /** The version byte is carried beside the claim: `canonical_bytes` does not include it. */
  datatype Tx = Tx(version: nat, claim: Claim)

  datatype Header = Header(
    version: nat, height: nat, prev: Hash, timestamp: nat, txCommitment: Hash, bits: Compact, nonce: nat, miner: nat)

  datatype Block = Block(header: Header, txs: seq<Tx>)

  /** What is kept of every block forever. */
  datatype Meta = Meta(height: nat, prev: Hash, timestamp: nat, bits: Compact, work: real)

  datatype Owner = Owner(key: nat, height: nat, block: Hash)

  type Owners = map<Username, Owner>

  datatype Checkpoint = Checkpoint(height: nat, hash: Hash, timestamp: nat, bits: Compact, work: real, owners: Owners)

  datatype LedgerError =
    | InvalidUsername | SignatureInvalid
    | TooManyTransactions | BlockTooLarge | TxCommitmentMismatch
    | UnknownParent(hash: Hash) | HeightMismatch | DifficultyMismatch | ProofOfWorkInvalid
    | TimestampTooOld | TimestampTooFarInFuture
    | AnchorInvalid | UsernameAlreadyClaimed(username: Username) | DuplicateClaimInBlock(username: Username)
    | UnknownBlock(hash: Hash) | HeightNotFound(height: nat)

  datatype Outcome = AlreadyKnown | ExtendedTip | AddedToFork | ReorgedTo(newHeight: nat)

  datatype Hashing = Hashing(
    headerHash: Header -> Hash, claimHash: Claim -> Hash, listHash: seq<Hash> -> Hash, verifies: Claim -> bool)

  /** The hash functions and the signature check; no block hashes to `ZERO`. */
  type Oracle = o: Hashing | forall h: Header :: o.headerHash(h) != ZERO
    witness Hashing((_: Header) => 1, (_: Claim) => 1, (_: seq<Hash>) => 1, (_: Claim) => true)

  /** Distinct preimages hash differently. */
  ghost predicate Injective(o: Oracle) {
    && (forall h, k: Header :: o.headerHash(h) == o.headerHash(k) ==> h == k)
    && (forall c, d: Claim :: o.claimHash(c) == o.claimHash(d) ==> c == d)
    && (forall s, t: seq<Hash> :: o.listHash(s) == o.listHash(t) ==> s == t)
  }

  function BlockHash(o: Oracle, b: Block): Hash { o.headerHash(b.header) }

  function TxId(o: Oracle, tx: Tx): Hash { o.claimHash(tx.claim) }

  function Ids(o: Oracle, txs: seq<Tx>): (ids: seq<Hash>)
    ensures |ids| == |txs|
    ensures forall i :: 0 <= i < |txs| ==> ids[i] == TxId(o, txs[i])
  {
    if |txs| == 0 then [] else [TxId(o, txs[0])] + Ids(o, txs[1..])
  }

  /** The hash of the sorted transaction ids. */
  function TxCommitment(o: Oracle, txs: seq<Tx>): Hash { o.listHash(Sort(Ids(o, txs))) }

  /** The length of a transaction's canonical bytes. */
  function TxSize(tx: Tx): nat {
    CLAIM_DOMAIN_TAG_LEN + 2 + |tx.claim.username| + 32 + 8 + 32 + 8 + |tx.claim.signature|
  }

  function TxsSize(txs: seq<Tx>): nat { if |txs| == 0 then 0 else TxSize(txs[0]) + TxsSize(txs[1..]) }

  function BlockSize(b: Block): nat { HEADER_LEN + TxsSize(b.txs) }

  predicate UsernameByte(b: byte) { ('a' as int <= b <= 'z' as int) || ('0' as int <= b <= '9' as int) || b == '_' as int }

  predicate ValidFormat(u: Username) {
    MIN_USERNAME_LEN <= |u| <= MAX_USERNAME_LEN && forall i :: 0 <= i < |u| ==> UsernameByte(u[i])
  }

  predicate SpaceByte(b: byte) { b == ' ' as int || 9 <= b <= 13 }

  function LowerByte(b: byte): byte { if 'A' as int <= b <= 'Z' as int then b + 32 else b }

  function Lowered(u: Username): Username {
    if |u| == 0 then [] else [LowerByte(u[0])] + Lowered(u[1..])
  }

  function Trimmed(u: Username): Username
    decreases |u|
  {
    if |u| > 0 && SpaceByte(u[0]) then Trimmed(u[1..])
    else if |u| > 0 && SpaceByte(u[|u| - 1]) then Trimmed(u[..|u| - 1])
    else u
  }

  /** `normalize_username` on ASCII; other bytes never reach it, the format check comes first. */
  function Normalized(u: Username): Username { Lowered(Trimmed(u)) }

  lemma {:induction false} LoweredKeepsLower(u: Username)
    requires forall i :: 0 <= i < |u| ==> UsernameByte(u[i])
    ensures Lowered(u) == u
  {
    if |u| > 0 {
      LoweredKeepsLower(u[1..]);
      assert u == [u[0]] + u[1..];
    }
  }

  /** A name of valid format is already normalized, so the second name check never refuses anything. */
  lemma {:induction false} ValidFormatIsNormalized(u: Username)
    requires ValidFormat(u)
    ensures Normalized(u) == u
  {
    assert UsernameByte(u[0]) && UsernameByte(u[|u| - 1]);
    LoweredKeepsLower(u);
  }

  /** Format first, then normal form, then the signature's length and validity. */
  function VerifySelfContained(o: Oracle, tx: Tx): Result<(), LedgerError> {
    if !ValidFormat(tx.claim.username) then Err(InvalidUsername)
    else if tx.claim.username != Normalized(tx.claim.username) then Err(InvalidUsername)
    else if |tx.claim.signature| != SIGNATURE_LEN || !o.verifies(tx.claim) then Err(SignatureInvalid)
    else Ok(())
  }

  /** A claim passes on its own exactly if its name is well formed and its signature verifies. */
  lemma {:induction false} SelfContainedExactly(o: Oracle, tx: Tx)
    ensures VerifySelfContained(o, tx).Ok? <==>
              && 5 <= |tx.claim.username| <= 32
              && (forall i :: 0 <= i < |tx.claim.username| ==>
                    var b := tx.claim.username[i];
                    'a' as int <= b <= 'z' as int || '0' as int <= b <= '9' as int || b == '_' as int)
              && |tx.claim.signature| == 64 && o.verifies(tx.claim)
  {
    var u := tx.claim.username;
    if forall i :: 0 <= i < |u| ==> 'a' as int <= u[i] <= 'z' as int || '0' as int <= u[i] <= '9' as int || u[i] == '_' as int {
      forall i | 0 <= i < |u| ensures UsernameByte(u[i]) {
      }
    }
    if ValidFormat(u) {
      ValidFormatIsNormalized(u);
      forall i | 0 <= i < |u| ensures 'a' as int <= u[i] <= 'z' as int || '0' as int <= u[i] <= '9' as int || u[i] == '_' as int {
        assert UsernameByte(u[i]);
      }
    }
  }

  function Genesis(o: Oracle): Block {
    Block(Header(1, 0, ZERO, GENESIS_TIMESTAMP, TxCommitment(o, []), INITIAL_DIFFICULTY_BITS, 0, 0), [])
  }

  /** The owner map after a block's claims: later inserts win, as in the program's map. */
  function ApplyClaims(owners: Owners, txs: seq<Tx>, height: nat, hash: Hash): Owners {
    if |txs| == 0 then owners
    else
      var last := txs[|txs| - 1];
      ApplyClaims(owners, txs[..|txs| - 1], height, hash)[last.claim.username := Owner(last.claim.owner, height, hash)]
  }

  /** Two's-complement reading of a 64-bit difference, as `as i64` arithmetic wraps. */
  function WrapI64(x: int): int {
    (x + 0x8000_0000_0000_0000) % 0x1_0000_0000_0000_0000 - 0x8000_0000_0000_0000
  }
}
