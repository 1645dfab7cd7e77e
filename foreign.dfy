/** The capabilities the chain spec borrows from crates that are not part of this model: ed25519
    key pairs, the Jubjub key hierarchy and ElGamal cipher, and the operating system's random
    number generator. Their values are abstract types and their operations are the fields of a
    `Crypto` record, so that every statement about the chain spec holds for whatever those crates
    compute; nothing here assumes any algebra of them. */
module Foreign {
  import opened Primitives

  /** A point of the Jubjub curve (the `pk_d` inside a payment address). */
  type Point
  /** An element of the Jubjub scalar field `Fs`. */
  type Fs
  /** `ExpandedSpendingKey<Bls12>`. */
  type ExpandedSpendingKey
  /** `ViewingKey<Bls12>`. */
  type ViewingKey
  /** `PaymentAddress<Bls12>`. */
  type PaymentAddress
  /** `elgamal::Ciphertext<Bls12>`, a pair of curve points. */
  type ElGamalCiphertext
  /** The on-chain encoding of an address (`zprimitives::pkd_address::PkdAddress`). */
  type PkdAddress
  /** The on-chain encoding of a ciphertext (`zprimitives::ciphertext::Ciphertext`). */
  type Ciphertext

  /** The curve crate's fixed generators, selected by role; the chain spec uses only the ElGamal one. */
  datatype FixedGenerator = ElGamal

  /** The prepared zk-SNARK verifying key: an opaque byte blob (`PreparedVk(Vec<u8>)`). */
  datatype PreparedVk = PreparedVk(bytes: Bytes)

  /** The foreign operations the chain spec calls, one field per call site. JUBJUB's curve
      parameters are fixed inside these operations. */
  datatype Crypto = Crypto(
    /** `ed25519::Pair::from_seed(seed).public().0`: the 32 bytes of the ed25519 public key. */
    ed25519Public: Bytes32 -> Bytes32,
    /** `ExpandedSpendingKey::from_spending_key(seed)`. */
    expandSpendingKey: Bytes -> ExpandedSpendingKey,
    /** `ViewingKey::from_expanded_spending_key(&expsk, &JUBJUB)`. */
    viewingKey: ExpandedSpendingKey -> ViewingKey,
    /** `viewing_key.into_payment_address(&JUBJUB)`. */
    intoPaymentAddress: ViewingKey -> PaymentAddress,
    /** `address.0`: the encryption key point held by a payment address. */
    encryptionKey: PaymentAddress -> Point,
    /** `PkdAddress::from_payment_address(&address)`. */
    pkdAddress: PaymentAddress -> PkdAddress,
    /** `elgamal_extend(bytes).as_bytes()`. */
    elgamalExtend: Bytes -> Bytes,
    /** `fs::Fs::to_uniform(bytes)`. */
    toUniform: Bytes -> Fs,
    /** `elgamal::Ciphertext::encrypt(value, randomness, &key, generator, &JUBJUB)`. */
    encrypt: (u32, Fs, Point, FixedGenerator) -> ElGamalCiphertext,
    /** `Ciphertext::from_ciphertext(&ciphertext)`. */
    serializeCiphertext: ElGamalCiphertext -> Ciphertext
  )

  /** The address the expanded-spending-key path derives from a seed: expand the seed, take the
      viewing key, and turn it into a payment address. */
  function PaymentAddressOf(c: Crypto, seed: Bytes): PaymentAddress {
    c.intoPaymentAddress(c.viewingKey(c.expandSpendingKey(seed)))
  }

  /** An opened `OsRng`, seen as the stream of bytes it will deliver. */
  datatype OsRng = OsRng(next: nat -> byte) {

    /** The first `n` bytes of the stream. */
    function Take(n: nat): (s: Bytes)
      ensures |s| == n
      ensures forall i :: 0 <= i < n ==> s[i] == next(i)
    {
      seq(n, i requires 0 <= i => next(i))
    }
  }

  /** The error `OsRng::new()` reports when the operating system's generator cannot be opened. */
  datatype RngError = RngError(reason: string)

  /** `rng.fill_bytes(&mut dest[..])`: every byte of `dest` is overwritten with the stream's output. */
  method FillBytes(rng: OsRng, dest: array<byte>)
    modifies dest
    ensures dest[..] == rng.Take(dest.Length)
  {
    forall i | 0 <= i < dest.Length {
      dest[i] := rng.next(i);
    }
  }
}
