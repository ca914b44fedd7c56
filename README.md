# counterd configuration resolver, in Dafny

This project models how the counterd daemon resolves its runtime configuration
(`counterd/config.go`). A `Config` holds the HTTP listen address, the Redis
address, the PostgreSQL connection string and a pointer to a `SnapshotConfig`.
The `SnapshotConfig` holds the cron expression and two thresholds. Each threshold
exists twice: as the raw text the user typed and as a resolved `time.Duration`.

`DefaultConfig` builds the compiled-in defaults. `ParseConfig(raw)` works in three steps:

1. It starts from those defaults.
2. It overlays the HCL document onto that object with `hcl.Decode`.
3. It derives each resolved threshold from its raw text with `time.ParseDuration`,
   update first, then delete.

Any failure returns `nil` and an error.

Files:

- `wrappers.dfy`, module `Wrappers`: `Option` and `Result`.
- `config.dfy`, module `CounterdConfig`: the whole resolver.
  - Durations are the `Duration` newtype: signed 64-bit nanoseconds, like Go's `time.Duration`.
    Go evaluates the default `3 * 30 * 24 * time.Hour` exactly at compile time. The
    newtype's range check shows that the value fits in 64 bits.
  - `hcl.Decode` and `time.ParseDuration` are foreign code. They are parameters:
    - a `Decoder` maps the raw document either to `None` (a decode error) or to an
      `Overlay`, which holds one optional string per HCL-tagged key;
    - a `DurationParser` maps a text to `None` (a parse error) or to a `Duration`.
  - `ConfigView` and `SnapshotView` are the values the two heap objects hold.
    `DefaultView`, `Derive` and `Resolve` are the specification functions.
  - `Config` and `SnapshotConfig` are classes. `Config.snapshot` is a pointer, as in Go.
    `ParseConfig` is an imperative method. It allocates the defaults, lets `HclDecode`
    write into them in place, then assigns the two resolved thresholds through
    `config.snapshot`, with the same early returns as the source. It is proved against `Resolve`.
  - The source writes the same block twice, once per threshold. The model writes it once,
    as `DeriveThreshold`, for a `Threshold` (`Update` or `Delete`). `DeriveAll` applies it
    along `DerivationOrder = [Update, Delete]`.
  - Every derivation lemma (`DeriveThreshold` through `DeriveIdempotent`) is stated for any
    post-decode configuration, so none of them depends on how the decoder treats the nested
    snapshot object. `HclDecode`, `ParseConfig` and the `Resolve…` lemmas do depend on it:
    they assume the in-place overlay described under "## Left out".

The default PostgreSQL connection string sets `sslmode=disable`, so transport
security is off by default. The model keeps this value as the source has it.

## Model

| member | source | states |
|---|---|---|
| `CounterdConfig.DefaultView` | counterd/config.go:45-55 | The defaults: listen `127.0.0.1:8001`, Redis `127.0.0.1:6379`, the PostgreSQL string with `sslmode=disable`, empty cron and raw thresholds, update threshold 10,800,000,000,000 ns (3h), delete threshold 7,776,000,000,000,000 ns (2160h). Both fit in int64. |
| `CounterdConfig.Config.Default` | counterd/config.go:45-55 | `DefaultConfig` returns a fresh `Config` that points to a fresh `SnapshotConfig` and holds exactly `DefaultView()`. The inner `&SnapshotConfig{...}` literal (lines 50-53) is built by the `SnapshotConfig` constructor, which copies a `SnapshotView` into the new object. |
| `CounterdConfig.Overlaid` | counterd/config.go:11-42 | The model's reading of the decode overlay, an assumption about foreign code: each key present replaces its field, each absent key keeps its field, and no key reaches the resolved durations (both are tagged `hcl:"-"`). An empty document leaves the configuration unchanged. |
| `CounterdConfig.HclDecode` | counterd/config.go:62 | A decode succeeds exactly when the decoder accepts the document. On success the keys are written in place into the existing `Config` and into the `SnapshotConfig` it points to. |
| `CounterdConfig.DeriveThreshold` | counterd/config.go:66-79 | One threshold block fails exactly when its raw text is non-empty and does not parse. On success that threshold's duration is the parsed value, or the prior value when the raw text is empty. Every other field is unchanged. |
| `CounterdConfig.DeriveAll` | counterd/config.go:66-79 | The ordered pass never changes cron or the raw texts. It never changes the duration of a threshold it does not visit. |
| `CounterdConfig.DeriveAllFailsIff` | counterd/config.go:66-79 | The pass fails if and only if some threshold it visits has a non-empty raw text that does not parse. This is the all-or-nothing failure. |
| `CounterdConfig.DeriveAllResolves` | counterd/config.go:66-79 | After a successful pass, each visited threshold holds the parse of its raw text, or its prior value when the raw text is empty. |
| `CounterdConfig.DerivationOrderIrrelevant` | counterd/config.go:66-79 | Any two orders that visit the same thresholds give the same outcome, both failure and result. Deriving update before delete changes nothing in the model, where both duration errors are reduced to `DurationFailed`. In the program, when both thresholds are bad, the order decides which rejected text the wrapped error quotes. |
| `CounterdConfig.SwappedOrderSameOutcome` | counterd/config.go:66-79 | Deriving delete before update would give the same outcome as the source's update-then-delete order, equal in the model, where duration errors are reduced to `DurationFailed`. |
| `CounterdConfig.Derive` | counterd/config.go:66-80 | The pass fails only with a duration error. On success the three addresses, cron and both raw texts are returned exactly as decoded. |
| `CounterdConfig.DeriveSpec` | counterd/config.go:66-79 | The pass succeeds if and only if neither non-empty raw threshold is rejected. On success the update and delete durations are each the parse of their raw text, or the post-decode value when the raw text is empty. |
| `CounterdConfig.EmptyRawKeepsThreshold` | counterd/config.go:66-79 | An empty raw threshold leaves its resolved duration at the post-decode value. |
| `CounterdConfig.ParsedRawSetsThreshold` | counterd/config.go:66-79 | A non-empty raw threshold that parses to `d` makes the resolved duration `d`. |
| `CounterdConfig.UnparsableRawFails` | counterd/config.go:66-79 | A non-empty raw threshold that does not parse fails the whole pass with a duration error. No partially derived configuration is returned. |
| `CounterdConfig.ThresholdsIndependent` | counterd/config.go:66-79 | A threshold's resolved duration depends only on its own raw text and post-decode value. The other threshold's inputs do not affect it. |
| `CounterdConfig.DeriveIdempotent` | counterd/config.go:66-79 | Running the pass again on its own successful result returns that result unchanged. |
| `CounterdConfig.Resolve` | counterd/config.go:58-81 | Resolution fails with a decode error exactly when the decoder rejects the document. On success the cron comes from the document, or stays empty. |
| `CounterdConfig.ResolveEmptyDocument` | counterd/config.go:58-81 | A document that sets no key resolves to exactly the defaults, including 3h and 2160h. |
| `CounterdConfig.ResolveListenAddressOnly` | counterd/config.go:58-81 | A document that sets only `listen_address` resolves to the defaults with that one address replaced. |
| `CounterdConfig.ResolveUpdateThresholdOnly` | counterd/config.go:66-79 | A document that sets only `update_threshold` to parsable text resolves the update threshold to the parsed value. The delete threshold keeps its default of 2160h. |
| `CounterdConfig.ResolveRejectsBadThreshold` | counterd/config.go:66-79 | A document whose `update_threshold` or `delete_threshold` is non-empty text the parser rejects yields a duration error and no configuration. |
| `CounterdConfig.ParseConfig` | counterd/config.go:58-81 | `ParseConfig` returns `null` exactly when it returns an error. The error is the one `Resolve` gives. On success it returns a fresh `Config` (and a fresh snapshot object) whose value is `Resolve(raw)`. |

## Left out

- The HCL grammar and `hcl.Decode`'s reflection over struct tags are foreign code and are not modelled. The decoder is a parameter, and `Overlaid` is this model's reading of its effect: each key present replaces its field, and every absent key keeps its value.
- Whether decoding a `snapshot` block reallocates the `Snapshot` pointer is not modelled, because the decoder's source is not part of this model. `HclDecode` writes into the existing snapshot object, and an `Overlay` cannot change a resolved duration. The derivation lemmas (`DeriveSpec` and those around it) hold for any post-decode configuration, so they do not rest on this choice. `HclDecode` (its `config.snapshot == old(config.snapshot)`), `ParseConfig` (proved equal to `Resolve` through it), `ResolveEmptyDocument` (which covers a document with an empty `snapshot {}` block) and `ResolveUpdateThresholdOnly` ("delete stays 2160h") do rest on it: if the decoder allocated a fresh `SnapshotConfig` for a `snapshot` block, the durations it does not derive would be zero instead of the defaults.
- `CounterdConfig.HclDecode`: promises nothing about the object after a decode error. `ParseConfig` discards that object, and the decoder may have written part of the document before failing.
- `time.ParseDuration`'s grammar, overflow rules and fractional handling are foreign code. The parser is an uninterpreted parameter. No format/parse round trip is stated, because the code never formats a duration.
- Error messages built with `fmt.Errorf` are reduced to two kinds, `DecodeFailed` and `DurationFailed`. The source uses the same "failed to parse duration" prefix for both thresholds and does not name the field; the wrapped `time.ParseDuration` error quotes the rejected text, which the model does not keep, so when both thresholds are bad the model cannot tell which one was reported. The design intent is that a duration error names the offending field; the code does not, and the model follows the code.
- The resolver is meant never to partially mutate a configuration it discards. The code does write the update threshold into its object before the delete threshold can fail. It then returns `nil`, so no caller sees that object. `ParseConfig` models that write. Its contract states that only `null` escapes.
- Resolving the same document twice gives equal values because `Resolve` is a function. Each `ParseConfig` call returns its own fresh objects.
- The HTTP listener, Redis, PostgreSQL and the cron scheduler that consume the configuration are external collaborators and are not modelled.
