# zero-chain node chain specifications, modelled in Dafny

This project models `src/chain_spec.rs` of the zero-chain node: the glue that turns a `--chain`
command-line argument into a Substrate chain specification and assembles the genesis
configuration of a confidential-transfer chain. It covers:

- `Alternative::from`, the parser from a command-line string to a chain (`Development`, `LocalTestnet`) or none;
- `Alternative::load`, the table of chain name, id, authority seeds, endowed-account seeds and root seed for each chain;
- `testnet_genesis`, the record builder that passes authorities, accounts and root key through, endows every account with `1 << 60`, pins the block period, deposit and fees, and seeds the confidential-transfer module;
- `get_pvk`, which turns a verifying key given as `i32` values into a byte blob by Rust's truncating `as u8` cast;
- `alice_init`, which fills a zeroed 32-byte buffer from the operating system's random number generator when it opens, maps it to a scalar, derives Alice's address from her seed and encrypts the value 100 under that address with the ElGamal generator.

The cryptography lives in crates that are not part of this model (ed25519 key pairs, the Jubjub key
hierarchy, the ElGamal cipher, `rand`). Module `Foreign` gives their values abstract types and
their operations as the fields of a `Crypto` record, so every property proved here holds for any
implementation of them and nothing is assumed about their algebra. The outcome of `OsRng::new()`
is an input (`RngOutcome`): either an opened generator, seen as the stream of bytes it yields, or
an error. The runtime WASM blob that `include_bytes!` embeds is the parameter `runtimeWasm`.

Modules, one file each: `Wrappers` (Option, Result), `Primitives` (fixed-width integers, byte
strings, the `as u8` cast, ASCII literals), `Foreign` (the abstract crypto and random-number
capability, `fill_bytes`), `Runtime` (the runtime's genesis records and Substrate's `ChainSpec`
record), `NodeChainSpec` (the operations of `src/chain_spec.rs`).

`load` hands Substrate a closure that builds the genesis; the model keeps it as a function field
`genesis: RngOutcome -> GenesisConfig` of `ChainSpec`, so each build of the genesis sees its own
generator outcome.

The seeds are 32-byte literals by type, so no length is checked. If `OsRng::new()` fails, the
randomness buffer silently stays all zero (`RngFailureLooksLikeZeroDraw`); otherwise Alice's
scalar comes from the generator's bytes. Nothing decrypts the genesis entry.

`NodeChainSpec.GenesisEntry` (the derive-and-encrypt flow of src/chain_spec.rs:148-156) and
`NodeChainSpec.AliceEntry` (its instance for Alice's seed, the value 100 and `AliceRandomness`) are
the specification functions that the method `AliceInit` is proved equal to and that
`TestnetGenesis` places in `encrypted_balance`. Both derive the address with
`Foreign.PaymentAddressOf`, the key-derivation chain of src/chain_spec.rs:150-152.

## Model

| member | source | states |
|---|---|---|
| `NodeChainSpec.Alternative.From` | src/chain_spec.rs:86-92 | "dev" gives Development; "" or "local" give LocalTestnet; every other string gives None (each as an if-and-only-if) |
| `NodeChainSpec.FromCliName` | src/chain_spec.rs:86-92 | every chain has a command-line name that `From` maps back to it |
| `NodeChainSpec.Alternative.Load` | src/chain_spec.rs:43-84 | always `Ok`; names "Development"/"Local Testnet", ids "dev"/"local_testnet"; no boot nodes, telemetry, protocol id, consensus engine or properties |
| `NodeChainSpec.FromChainId` | src/chain_spec.rs:43-92 | the development chain's id parses back to it; the local testnet's id "local_testnet" is rejected by `From` |
| `NodeChainSpec.LoadDevelopment` | src/chain_spec.rs:45-60 | one authority and one endowed account, both Alice's public key, endowed with `Endowment`; root Alice |
| `NodeChainSpec.LoadLocalTestnet` | src/chain_spec.rs:61-82 | authorities Alice, Bob; endowed Alice, Bob, Charlie, Dave, Eve, Ferdie in that order, each with `Endowment`; root Alice |
| `NodeChainSpec.SeedsAreSpacePaddedNames` | src/chain_spec.rs:49-75 | each seed literal (all 32 bytes by type) is its ASCII name followed by spaces up to 32 bytes |
| `NodeChainSpec.TestnetGenesis` | src/chain_spec.rs:95-131 | authorities, indexed accounts and root key passed through unchanged; one balance per endowed account, same order, each `Endowment`; no vesting; period 5, existential deposit 500, transfer and creation fee 0, base fee 1, byte fee 0; encrypted balances exactly `[AliceEntry]`, verifying key `[1]`, `simple_num` 3 |
| `NodeChainSpec.Endow` | src/chain_spec.rs:113 | as many balances as accounts, entry `i` pairs account `i` with the amount |
| `NodeChainSpec.EndowmentIsOneShiftedBy60` | src/chain_spec.rs:113 | the endowment equals two to the sixtieth (`1 << 60`) |
| `NodeChainSpec.GenesisDependsOnRngOnlyThroughAliceCiphertext` | src/chain_spec.rs:95-131 | two genesis builds with any generator outcomes agree everywhere except in the ciphertext of Alice's entry |
| `Primitives.AsU8` | src/chain_spec.rs:134 | `e as u8` is the byte congruent to `e` modulo 256, and sign-extending it gives back any `e` in -128..127 |
| `Primitives.AsU8IsLowByte` | src/chain_spec.rs:134 | the cast keeps the lowest byte of the 32-bit two's-complement word |
| `NodeChainSpec.AsU8All` | src/chain_spec.rs:134 | the mapped vector has the input's length and element `i` is `a[i] as u8` |
| `NodeChainSpec.GetPvk` | src/chain_spec.rs:133-136 | the blob has the input's length; byte `i` is congruent to value `i` modulo 256 and equals the low byte of its two's-complement word |
| `NodeChainSpec.GetPvkOfBytes` | src/chain_spec.rs:133-136 | on values that are already bytes, the conversion is the identity |
| `Foreign.FillBytes` | src/chain_spec.rs:146 | every byte of the buffer is replaced by the generator's next output |
| `NodeChainSpec.AliceRandomness` | src/chain_spec.rs:143-147 | 32 zero bytes when the generator fails to open, otherwise its first 32 bytes |
| `NodeChainSpec.AliceInit` | src/chain_spec.rs:138-157 | the buffer starts zeroed and is overwritten only when the generator opens; the result is the genesis entry for the Alice seed, value 100 and that buffer |
| `NodeChainSpec.GenesisEntryUsesOneAddress` | src/chain_spec.rs:148-156 | the entry's address and the encryption key come from the one payment address the seed derives; the ElGamal generator is used; only the scalar depends on the randomness |
| `NodeChainSpec.GenesisEntryDependsOnSeedOnlyThroughAddress` | src/chain_spec.rs:150-156 | seeds that derive the same payment address give the same entry |
| `NodeChainSpec.RngFailureLooksLikeZeroDraw` | src/chain_spec.rs:143-148 | a generator that fails to open yields exactly the entry of a generator whose first 32 bytes are zero: the failure is not visible in the result |

## Left out

- Jubjub curve and scalar arithmetic, `ExpandedSpendingKey::from_spending_key`, `ViewingKey::from_expanded_spending_key`, `into_payment_address`, `elgamal::Ciphertext::encrypt`, `elgamal_extend`, `Fs::to_uniform` and the `PkdAddress`/`Ciphertext` encodings: foreign crates, modelled only as uninterpreted fields of `Crypto`.
- Decryption, homomorphic addition and wrong-key failure: implemented in none of the modelled code, so no property of them is stated.
- `ed25519::Pair::from_seed(..).public()`: foreign signature-key derivation, modelled as the uninterpreted `ed25519Public`; the `.into()` conversions to `Ed25519AuthorityId` and `AccountId` are modelled as wrapping the public key's 32 bytes.
- The entropy of `OsRng`: the generator is an input stream, not randomness.
- `include_bytes!` of the runtime WASM (a build artifact, taken as a parameter), the internals of `ChainSpec::from_genesis` (a Substrate library record here), the `lazy_static` `JUBJUB` parameters (implicit in the `Crypto` operations), and the `PVK` constant of `crate::pvk`, which is not part of this model and is used only on the commented-out line 125.
- The runtime's `Balance` and `Moment` are taken to be `u128` and `u64`, as in the Substrate node template; the runtime crate is not part of this model, and only their ability to hold the constants used matters.
- The `Clone` and `Debug` derivations of `Alternative` and the `_genesis_phantom_data` field: they carry no behaviour.
