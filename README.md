# Cursor relay: checksum, client key and request framing

This project models the part of the Cursor relay (`relay/llm/cursor/fetch.go`)
that builds what is sent upstream. That is three things:

- The `x-cursor-checksum` header comes from `genChecksum`. It is taken from
  the inbound header, the `cursor.checksum` setting, or a remote URL behind a
  30-minute cache. Only when all of those are empty is it computed locally.
  The local value mixes the current half-hour window into six bytes and
  appends two SHA-256 digests.
- The `x-client-key` header comes from `genClientKey`.
- The request body comes from `convertRequest`. It maps the chat messages to
  a protobuf `ChatMessage` and puts the serialized bytes behind a five-byte
  envelope: a flag byte, then the big-endian payload length
  (`int32ToBytes` / `bytesToInt32`).

Modules:

- `Outcomes`: `Option`, `Result`, and the failure kinds. A Go panic on an
  out-of-range index is the value `Err(IndexOutOfRange)`.
- `Bytes`: bytes as integers 0-255. Covers Go's `byte(x)` truncation, `^`
  defined bit by bit, and big-endian uint32 encoding and decoding.
- `Encoding`: lowercase hex (`hex.EncodeToString`), unpadded standard base64
  (`base64.RawStdEncoding`), and their decoders.
- `Text`: `strings.Split` on a one-character separator, `strings.HasPrefix`,
  and a join.
- `Mixer`: the `calc` closure. It is a method on an array, proved equal to a
  specification function, and that function is proved invertible.
- `Clock`: half-hour bucketing and the millisecond-to-timestamp conversion.
- `Checksum`: the six-byte layout, the local checksum, and the client key.
- `Resolver`: the source-selection rules of `genChecksum`, the checksum cache
  as a class, and `genChecksum` as an imperative method.
- `Framing`: `elseOf`, the message mapping, `convertRequest`, and the
  envelope.

The program's hash, UUID, serialization, clock and network calls are not
modelled. They become parameters of the functions that use them:

- `Hashes.sha256` stands for SHA-256 and `Hashes.calcHex` for the cache key.
  Where a lemma needs 32-byte digests, `DigestSized` is a precondition.
- `ids` and `conversationId` stand for the fresh UUIDs.
- `marshal` stands for `proto.Marshal`, with `None` meaning an error.
- `now` and `zone` stand for `time.Now()` and its location.
- `cacheFault`, `setFault` and `fetch` stand for what the cache lookup, the
  cache write and the HTTP GET report.

Three behaviours of the Go code, modelled as written:

- The window timestamp is the bucket's Unix milliseconds divided by 10^6 and
  rounded down. It is not seconds since the epoch.
- A token without a '.' makes `salt[1]` panic. No descriptive error is
  returned.
- The fetched body is used exactly as `emit.TextResponse` returns it. It is
  not trimmed.

## Model

| member | source | states |
|---|---|---|
| Bytes.XorCancel | relay/llm/cursor/fetch.go:154 | XOR-ing a byte with the same running byte twice gives the byte back, which is what makes the mixer reversible |
| Bytes.Be32RoundTrip | relay/llm/cursor/fetch.go:183-188 | `Uint32` of the four bytes written by `PutUint32(v)` is v, for every v below 2^32 |
| Bytes.Be32Inverse | relay/llm/cursor/fetch.go:187-189 | every four bytes are the `PutUint32` encoding of the number `Uint32` reads from them |
| Encoding.Hex | relay/llm/cursor/fetch.go:114 | `hex.EncodeToString` yields two characters per byte, all lowercase hex digits |
| Encoding.HexRoundTrip | relay/llm/cursor/fetch.go:114 | decoding the hex text of any byte string gives the bytes back |
| Encoding.HexInjective | relay/llm/cursor/fetch.go:176 | different digests never print as the same hex text |
| Encoding.Base64Raw | relay/llm/cursor/fetch.go:176 | unpadded base64 of n bytes has (4n+2)/3 characters, so the six mixed bytes become 8 characters |
| Encoding.SextetsRoundTrip | relay/llm/cursor/fetch.go:176 | the 6-bit groups of the unpadded encoding, with partial final groups, determine the bytes |
| Encoding.Base64RawRoundTrip | relay/llm/cursor/fetch.go:176 | decoding the unpadded base64 text of any byte string gives the bytes back |
| Text.Split | relay/llm/cursor/fetch.go:150 | `strings.Split` yields at least one piece, and no piece contains the separator |
| Text.JoinSplit | relay/llm/cursor/fetch.go:150 | joining the pieces with the separator gives back the split string |
| Text.SplitJoin | relay/llm/cursor/fetch.go:150 | splitting separator-free pieces after joining them gives the pieces back |
| Text.SplitHasSecond | relay/llm/cursor/fetch.go:150 | `salt[1]` exists exactly when the token contains a '.' |
| Mixer.Mix | relay/llm/cursor/fetch.go:151-157 | the in-place loop leaves the array equal to `Mixed` of its old contents |
| Mixer.MixedRecurrence | relay/llm/cursor/fetch.go:151-157 | out[0] = in[0] xor 165, and out[i] = (in[i] xor out[i-1]) + i modulo 256 for i >= 1 |
| Mixer.UnmixMix | relay/llm/cursor/fetch.go:151-157 | the explicit inverse, (out[i] - i) xor prev, recovers every input |
| Mixer.MixUnmix | relay/llm/cursor/fetch.go:151-157 | every output sequence is the mixing of exactly one input, so the mixer is a bijection |
| Mixer.MixedInjective | relay/llm/cursor/fetch.go:151-157 | different inputs never mix to the same bytes |
| Clock.Bucket | relay/llm/cursor/fetch.go:161 | the window start keeps the date and hour, rounds the minute down to 0 or 30 within 30 minutes of the reading, and clears seconds and nanoseconds |
| Clock.BucketIdempotent | relay/llm/cursor/fetch.go:161 | bucketing a window start leaves it unchanged |
| Clock.BucketEqualIff | relay/llm/cursor/fetch.go:161 | two readings share a window exactly when they are in the same half hour (both directions) |
| Clock.Timestamp | relay/llm/cursor/fetch.go:162 | the timestamp is the floor of milliseconds / 10^6: ts*10^6 <= ms < (ts+1)*10^6 |
| Clock.SameHalfHourSameTimestamp | relay/llm/cursor/fetch.go:160-162 | all readings in one half hour give the same timestamp |
| Clock.LaterWindowLaterTimestamp | relay/llm/cursor/fetch.go:161-162 | a window at least 1,800,000 ms later has a strictly larger timestamp |
| Checksum.ShiftedByteOfLow32 | relay/llm/cursor/fetch.go:164-169 | shifting right by 0, 8, 16 or 24 bits and masking to a byte sees only the low 32 bits of the timestamp |
| Checksum.LayoutShape | relay/llm/cursor/fetch.go:163-170 | before mixing, bytes 0-1 equal bytes 4-5 and hold the low 16 bits, and bytes 2-5 are the big-endian timestamp modulo 2^32 |
| Checksum.LocalChecksumFailsIff | relay/llm/cursor/fetch.go:150-172 | the local branch panics on `salt[1]` exactly when the token has no '.' |
| Checksum.LocalChecksumFormat | relay/llm/cursor/fetch.go:171-176 | with 32-byte digests the checksum has 137 characters: 8 of mixed window, 64 hex of SHA-256(salt[1]), '/' at index 72, then 64 hex of SHA-256(token) |
| Checksum.ReadWindowOfLocal | relay/llm/cursor/fetch.go:162-176 | decoding the first 8 characters and unmixing recovers the timestamp modulo 2^32 |
| Checksum.LocalChecksumChangesWithWindow | relay/llm/cursor/fetch.go:162-176 | timestamps that differ modulo 2^32 give different checksums for the same token |
| Checksum.LocalChecksumStableInWindow | relay/llm/cursor/fetch.go:160-176 | the checksum depends only on the token and the half-hour window, and is the same throughout one window |
| Checksum.NextWindowChangesChecksum | relay/llm/cursor/fetch.go:160-176 | for any reading within 10^15 ms of the epoch, about 31,700 years before or after 1970, the next half-hour window gives a different checksum |
| Checksum.ClientKeyShape | relay/llm/cursor/fetch.go:112-115 | the client key is 64 lowercase hex digits that decode to SHA-256 of token + "--client-key" |
| Resolver.HeaderWins | relay/llm/cursor/fetch.go:118-121 | a non-empty inbound `x-cursor-checksum` is returned unchanged, with no lookup, fetch or cache write |
| Resolver.SettingVerbatim | relay/llm/cursor/fetch.go:121-148 | without a header, a non-empty setting not starting with "http" is returned unchanged |
| Resolver.LocalOnlyWhenBothEmpty | relay/llm/cursor/fetch.go:121-148 | the local computation runs exactly when both the header and the setting are empty, and it neither fetches nor writes the cache |
| Resolver.OnlyLocalFails | relay/llm/cursor/fetch.go:117-179 | only the local branch can panic, and only for a token without '.' |
| Resolver.RemoteBranch | relay/llm/cursor/fetch.go:123-145 | cache error gives ""; a cached value is returned with no GET; on a miss the GET happens, a failure gives "" with nothing handed to the cache, and a body is handed to the cache and returned |
| Resolver.FetchOnlyOnMiss | relay/llm/cursor/fetch.go:123-145 | the GET is issued exactly on a cache miss in the URL branch, and a value handed to the cache is always the returned one |
| Resolver.CursorCache.GetValue | relay/llm/cursor/fetch.go:125 | the lookup reports the store's error, else the stored value, else "" |
| Resolver.CursorCache.SetWithExpiration | relay/llm/cursor/fetch.go:143 | the write reports the store's error, and then nothing changes; otherwise the entry under the key is replaced, with its expiry, and no other entry changes |
| Resolver.CacheAfter | relay/llm/cursor/fetch.go:143-144 | after a call only the token's key can change; it holds the fetched body with the 30-minute expiry when a body was fetched and the write did not fail, and otherwise the cache is unchanged |
| Resolver.GenChecksum | relay/llm/cursor/fetch.go:117-179 | the step-by-step method returns the checksum the selection rules choose and fetches exactly when they say; a cache write error is discarded, so it never changes the result, and the cache changes only by a successful write of the fetched body under the token's key with a 30-minute expiry |
| Resolver.ComputeLocal | relay/llm/cursor/fetch.go:148-177 | the local branch, split, bucket, six-byte array mixed in place and formatted, yields exactly `LocalChecksum` of the token and the window timestamp, or the `salt[1]` panic |
| Framing.ElseOf | relay/llm/cursor/fetch.go:191-196 | the result is the first value when the condition holds and the second otherwise |
| Framing.UserMessagesMapping | relay/llm/cursor/fetch.go:75-81 | one user message per input message, in order, with its own id, the content copied, and role code 1 exactly for "user" and 2 otherwise |
| Framing.BuildChatMessage | relay/llm/cursor/fetch.go:82-94 | `Model[7:]` panics exactly on a model name shorter than seven characters, and otherwise the name is the model with its first seven characters removed |
| Framing.PutUint32 | relay/llm/cursor/fetch.go:183 | the first four array cells receive the big-endian encoding and the rest are untouched |
| Framing.Int32ToBytes | relay/llm/cursor/fetch.go:181-185 | five bytes: the magic byte, then `uint32(num)` big-endian, which `bytesToInt32` reads back as num modulo 2^32 |
| Framing.BytesToInt32 | relay/llm/cursor/fetch.go:187-189 | a slice shorter than four bytes panics; otherwise the value is the unsigned 32-bit number whose big-endian encoding is the first four bytes |
| Framing.FrameLayout | relay/llm/cursor/fetch.go:101-102 | the frame is the flag byte, the payload length modulo 2^32 readable by `bytesToInt32`, then the unchanged payload |
| Framing.UnframeFrame | relay/llm/cursor/fetch.go:101-102 | a payload shorter than 2^32 bytes is read back whole, with its flag, from its frame |
| Framing.ConvertRequest | relay/llm/cursor/fetch.go:74-104 | the method returns `Converted`: the panic, the marshal error, or the framed serialization |
| Framing.ConvertedShape | relay/llm/cursor/fetch.go:74-104 | conversion fails with the index panic exactly on a short model name; for a long enough name it fails exactly when marshalling fails, and a successful marshal gives the frame: flag 0, the payload length, then the payload; the message holds the mapped messages and the cut model name |

## Left out

- `fetch` (fetch.go:26-73) is not part of this model. It POSTs the converted request upstream: HTTP plumbing around the modelled functions.
- `checkUsage` (fetch.go:106-109) is not part of this model. It is a stub that does no I/O and returns its `max` argument; `fetch` passes 150 (fetch.go:27), so the `count <= 0` branch of `fetch` (fetch.go:31-34) can never run.
- SHA-256, `common.CalcHex`, `uuid.NewString` and `proto.Marshal` are foreign code. They are parameters here, so the model does not depend on their internals.
- The protobuf wire encoding of `ChatMessage` is not modelled. The message is a datatype, and its serialization is the `marshal` parameter.
- `message.Is("role", "user")` and `message.GetString("content")` read a key-value map. The model takes the role and content as strings; a missing role counts as not "user", and missing content as "".
- The HTTP GET of the checksum URL is a parameter outcome, failure or body. Status checks, content-type checks and closing the body are not modelled.
- `logger.Error` output is not modelled.
- Resolver.CursorCache.SetWithExpiration: a write that reports an error is taken to leave the store unchanged. The cache package is not part of this model, so a partial write is not represented.
- Resolver.CursorCache.GetValue: the cache's own expiry clock is not modelled. `entries` holds the entries that have not yet expired, and the 30-minute expiry is only recorded.
- Concurrent requests sharing the cache are not modelled. Each call is sequential.
- Clock.Timestamp: `math.Floor(float64(ms) / 1e6)` is modelled as exact integer floor division. This is exact while |ms| < 2^53, which covers every real clock reading.
- Time-zone rules and `time.Date` normalisation are the `zone` parameter. `zone` maps a valid local reading to its Unix milliseconds.
- Go indexes strings by byte, while the model indexes by character. This differs from the source only for non-ASCII tokens and model names.
- Framing.UnframeFrame: the round trip is stated for payloads below 2^32 bytes. For a longer payload, `uint32(len)` wraps; `FrameLayout` states the wrapped value.
