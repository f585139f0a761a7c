# Windows file follower: configuration validation and views

A Dafny model of the configuration layer of Gravwell's Windows file-follower
ingester (`winfilefollow/config.go`). The ingester reads one configuration file
holding a `[Global]` section (ingest secret, connection timeout, three lists of
backend targets — cleartext, TLS and named pipe — log level, cache and state
paths) and any number of `[Follower "name"]` sections (a base directory to
watch, a file filter, a tag, two timestamp flags).

The model covers:

- the loader's guards: a file larger than `MAX_CONFIG_SIZE` (2 MiB) is refused,
  and so is a read that returns a byte count other than the file size; then the
  decoder's verdict and validation are passed on (`Loader`);
- `verifyConfig`: the fixed order of fail-fast checks — timeout, secret, backend
  target count, follower count, then every follower's base directory and tag —
  and the normalisation it performs on the way (an empty tag becomes `default`,
  the directory is cleaned). The program edits the followers in place through
  pointers; the model returns the updated configuration (`Verify`);
- the derived views: `Targets` (scheme-prefixed connection strings in the fixed
  order tcp, tls, pipe), `Tags` (first-seen de-duplication of the followers'
  tags), `Timeout`, `CacheEnabled` and `Followers` (`Views`, `Dedup`);
- Go's `strings.TrimSpace` and `strings.ContainsAny` as far as the layer uses
  them (`Strings`).

The follower map, which Go iterates in no defined order, is a sequence of
(name, entry) pairs: every result that depends on the order (which follower an
error names, the order of the tag list) is determined by that sequence, and the
properties hold for every order. The library code the layer calls —
`time.ParseDuration`, `filepath.Clean` and the ingest library's
`FORBIDDEN_TAG_SET` — is a parameter, `ConfigTypes.Env`: two total functions
(durations are integer nanoseconds, `None` is a parse error) and a set of
characters.

Files: `wrappers.dfy` (Option, Result, Outcome), `strings.dfy`, `dedup.dfy`,
`config.dfy` (the records, the error type, the environment), `verify.dfy`,
`views.dfy`, `loader.dfy`.

## Model

| member | source | states |
|---|---|---|
| Strings.TrimSpace | winfilefollow/config.go:183 | The trimmed timeout is empty exactly when the text is all white space (Go's `unicode.IsSpace` set); otherwise it neither starts nor ends with white space and is an infix of the text with only white space cut on either side. |
| Verify.ParseTimeout | winfilefollow/config.go:182-188 | A blank or white-space-only timeout parses to 0 without error; any other is the duration parser's verdict on the trimmed text. |
| Verify.CheckFollower | winfilefollow/config.go:106-115 | One follower passes exactly when its base directory is non-empty and its tag, after defaulting to `default`, holds no forbidden character; an empty directory is reported before a bad tag, both naming the follower; on success the directory is the cleaned original, the tag the original or `default`, and nothing else changes. |
| Verify.VerifyFollowers | winfilefollow/config.go:105-116 | The follower loop succeeds exactly when every follower passes, and then returns every follower, names and order kept, normalised; on failure the error is that of the first failing follower in iteration order. |
| Verify.VerifyConfig | winfilefollow/config.go:85-118 | The checks run in the fixed order timeout (unparseable, then negative), secret, backend-target count, follower count, followers: each error is reported exactly when every earlier check passed and its own fails — for followers, the error of the first failing follower in iteration order is returned whenever the global checks pass, and a follower error is returned only then; no loader or accessor error is ever returned; success exactly when all pass, with the global section unchanged and every follower normalised. |
| Verify.VerifyConfigIdempotent | winfilefollow/config.go:105-116 | Validating an accepted configuration a second time accepts it unchanged, provided cleaning settles on each directory (gives a non-empty path it leaves alone). |
| Verify.SecretCheckedBeforeFollowers | winfilefollow/config.go:92-104 | With a blank timeout, an empty secret is reported even when there are no followers. |
| Verify.NegativeTimeoutRefused | winfilefollow/config.go:86-91 | A timeout of `-5s`, which the parser reads as minus five seconds, is refused as negative. |
| Verify.ForbiddenTagRefused | winfilefollow/config.go:109-114 | With `!` and space forbidden, a follower tagged `bad tag!` is refused with an error naming it. |
| Views.Targets | winfilefollow/config.go:120-135 | Fails (no connections) exactly when all three target lists are empty; otherwise the list has one entry per target, `tcp://` + each cleartext target, then `tls://` + each encrypted target, then `pipe://` + each pipe target, each group in source order. |
| Views.TargetsRoundTrip | winfilefollow/config.go:120-134 | Reading the connection list back by scheme, prefix removed, gives exactly the cleartext, encrypted and pipe target lists in their original order. |
| Views.Tags | winfilefollow/config.go:137-153 | Fails (no tags) exactly when every follower's tag is empty; otherwise the tags hold no duplicate and no empty string, contain exactly the non-empty follower tags, and list them in order of first occurrence over the followers. |
| Dedup.FirstSeen | winfilefollow/config.go:139-148 | The first-seen collection holds no duplicate, and a name is in it exactly when it is non-empty and among the inputs. |
| Dedup.FirstSeenOrder | winfilefollow/config.go:140-147 | The collected names are ordered by the position of their first occurrence among the inputs. |
| Dedup.FirstSeenCharacterized | winfilefollow/config.go:137-148 | The first-seen collection is the only duplicate-free sequence of exactly the non-empty names ordered by first occurrence. |
| Views.Timeout | winfilefollow/config.go:159-164 | The timeout is never negative; it is the parsed duration when that is positive, and 0 when the timeout is blank, non-positive or does not parse. |
| Views.CacheEnabled | winfilefollow/config.go:178-180 | The cache is enabled exactly when the cache path is non-empty. |
| Views.Followers | winfilefollow/config.go:194-200 | Given distinct follower names, as the keys of the program's map are, the copy has exactly the follower names as keys and maps each name to its entry unchanged. |
| Loader.CheckRead | winfilefollow/config.go:63-73 | A file is refused as too large exactly when it is over 2,097,152 bytes, as short-read exactly when it is within the limit but the read count differs from the size, and passes otherwise. |
| Loader.SizeCeilingBoundary | winfilefollow/config.go:64-67 | A file of exactly 2,097,152 bytes read in full passes the guard; one of 2,097,153 bytes is refused as too large whatever was read. |
| Loader.Load | winfilefollow/config.go:52-83 | The loader refuses an oversized file, then a short read, then a decoding failure, and otherwise returns the validator's verdict unchanged; an accepted configuration came from a complete read within the limit. |
| Loader.LoadedAnswers | winfilefollow/config.go:79-82 | An accepted configuration yields a non-empty connection list and a non-empty tag list containing every follower's tag, and its timeout is the parsed, non-negative duration. |

## Left out

- File handling in `GetConfig` (open, stat, read, close) and the I/O errors it passes on: input/output. The size and byte count it obtains are parameters of `Loader.CheckRead` and `Loader.Load`.
- Decoding of the configuration text by the gcfg library: foreign code whose grammar is not modelled. `Loader.Load` takes the decoder's result (`None` for a syntax error).
- The internals of `time.ParseDuration`, `filepath.Clean` and the contents of `ingest.FORBIDDEN_TAG_SET`: foreign code and data. They are the fields of `ConfigTypes.Env`. That Clean is idempotent and never returns an empty path is not assumed anywhere; `Verify.VerifyConfigIdempotent` takes it as a hypothesis.
- Verify.VerifyConfig: states that each accepted follower's original directory was non-empty and that its new directory is the cleaned original, but not that the new directory is non-empty, because that depends on `filepath.Clean`, which is not modelled.
- `VerifyRemote`, `Secret`, `LogLevel`, `CachePath` and `StatePath`: each returns one field verbatim; the field selectors of `ConfigTypes.Global` are those accessors.
- The in-place edits `verifyConfig` makes to followers before a later follower fails: `GetConfig` discards the configuration on any error, so they are not observable; the model returns only the error.
- Go's map iteration order, which may differ between the loop in `verifyConfig` and the loop in `Tags`: the model uses one sequence order for both.
- `strings.TrimSpace` works on UTF-8 bytes; the model works on Unicode characters, so invalid UTF-8 in the timeout is not modelled.
- The 64-bit range of `time.Duration` and of file sizes: durations and sizes are unbounded integers; the duration parser already rejects values out of range.
- The error message texts: an error value names the failed check and, for follower errors, the follower. A parse error of the timeout is passed on by the program as the parser's own error; the model reports it as `UnparseableTimeout`.
