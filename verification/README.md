# MinFS mount configuration — a Dafny model

This project models the configuration layer of MinFS, a client that mounts a
remote object-storage bucket on a local mountpoint (`fs/config.go`). It covers
four pieces of decision logic:

- the `Config` record, built from the zero value by applying functional
  options in order: `Mountpoint`, `Target`, `CacheDir`, `SetGID`, `SetUID`,
  `Insecure` and `Debug`;
- how `Target` derives the bucket and the base path from the URL path. The
  path goes through Go's `strings.Split` and `path.Join`, and both are
  modelled;
- `Config.validate`, which checks mountpoint, target and bucket in that order;
- `InitMinFSConfig`, the credential bootstrap. On the first run it creates
  `config.json` from the `MINFS_ACCESS_KEY`, `MINFS_SECRET_KEY` and
  `MINFS_SECRET_TOKEN` environment variables. Otherwise it loads the file
  and lets non-empty environment values override its keys.

Modules:

- `Wrappers` holds `Option` (Go's nil pointer), `Result` and `Outcome`.
- `Strings` models `strings.Split` and `strings.Join` on one separator character.
- `Paths` models `path.Join`, including the lexical cleaning of `.` and `..`,
  for elements without `/`.
- `Configuration` holds the `Config` record, its zero value and a uniform
  per-field view (`Get`).
- `Options` holds the options as a datatype, `Apply`, the in-order fold `Build`,
  and the last-writer characterisation of the fold.
- `Validation` holds `Validate`.
- `Bootstrap` holds `AccessConfig`, the environment override, and `Init` over
  an abstract host.

Outside collaborators become parameters:

- URL parsing is a `Parser` (`string -> Option<Url>`).
- The file system is a `Host` record. It holds the outcomes of directory
  creation, stat, read and write, and the environment map.
- JSON is a `Codec` of opaque, possibly failing, encode and decode functions.
- A bootstrap run returns its result and the file-system calls it made, in
  order.

### Notes on the code

- `validate`'s messages are "Mountpoint not set", "Target not set" and
  "Bucket not set".
- A `Target` whose URL path is `""` or `/` does not clear the bucket or the
  base path. It keeps whatever an earlier `Target` set, and only stores the
  new URL.
- `Target` measures the URL path with `len` and drops its first byte with
  `u.Path[1:]`, whatever that byte is. It assumes the byte is `/`.
- The guards `len(parts) >= 0` and `len(parts) >= 1` are always true, because
  `strings.Split` never returns an empty slice. So a long-enough path always
  sets both the bucket and the base path.

## Model

| member | source | states |
|---|---|---|
| Strings.JoinSplit | fs/config.go:126 | joining the pieces of `strings.Split` with the separator gives the original string back |
| Strings.SplitJoin | fs/config.go:126 | splitting the join of separator-free pieces gives exactly those pieces, so a path's segments are recovered |
| Paths.Resolve | fs/config.go:131 | cleaning a relative path leaves no empty or `.` element, puts every `..` before the names, and keeps only elements that were in the input |
| Paths.Join | fs/config.go:131 | `path.Join` returns the empty string exactly when every element is empty |
| Paths.JoinPlain | fs/config.go:131 | when no element is `.` or `..`, `path.Join` keeps the non-empty elements in order and joins them with `/` |
| Paths.JoinIsClean | fs/config.go:131 | a non-empty result of `path.Join` is `.` or splits into segments that are neither empty nor `.`, with every `..` before the names |
| Paths.JoinIdempotent | fs/config.go:131 | re-joining the segments of a joined path gives the same path |
| Options.Apply | fs/config.go:112-171 | each option changes exactly the fields it writes, to a value that does not depend on the configuration it is applied to; every other field keeps its value |
| Options.TargetSegments | fs/config.go:125-131 | for a path `/` followed by slash-free segments, the bucket is the first segment and the base path is `path.Join` of the rest |
| Options.TargetBucketAndPath | fs/config.go:125-131 | `/b/p1/p2` gives bucket `b` and base path `p1/p2` |
| Options.TargetTrailingSlash | fs/config.go:125-131 | `/b/` gives bucket `b` and an empty base path |
| Options.TargetEmptyPiecesDropped | fs/config.go:125-131 | `/b//c/` gives bucket `b` and base path `c`, because empty segments are dropped |
| Options.TargetDoubleSlashEmptyBucket | fs/config.go:125-131 | `//x` gives the empty bucket |
| Options.ExampleTarget | fs/config.go:120-136 | a target with URL path `/bucket/a/b` stores the URL, bucket `bucket` and base path `a/b`, and changes nothing else |
| Options.UnparsableTargetChangesNothing | fs/config.go:120-136 | a target that fails to parse leaves the whole configuration unchanged, with no error |
| Options.RootTargetKeepsBucket | fs/config.go:122-125 | a target whose path is `""` or `/` replaces only the URL; the bucket and base path from before survive |
| Options.LaterOptionOverrides | fs/config.go:112-171 | last write wins: an option writing every field an earlier one wrote hides it, so repeating a setter keeps the second value and `Insecure`/`Debug` are idempotent |
| Options.DisjointOptionsCommute | fs/config.go:112-171 | options that write disjoint fields can be applied in either order |
| Options.BuildField | fs/config.go:112-171 | after applying a list of options in order, each field holds what the last option writing it wrote, or its starting value if none does |
| Options.BuildAppend | fs/config.go:112-171 | applying two option lists one after the other equals applying their concatenation |
| Validation.Validate | fs/config.go:174-189 | validation passes iff mountpoint is non-empty, target is set and bucket is non-empty; otherwise it reports the first missing one, in the order mountpoint, target, bucket |
| Validation.ValidateReadsOnlyChecked | fs/config.go:174-189 | configurations that agree on mountpoint, target and bucket get the same verdict, whatever their cache, credentials, uid, gid, flags, base path or mode |
| Validation.OtherOptionsKeepVerdict | fs/config.go:138-171 | `CacheDir`, `SetGID`, `SetUID`, `Insecure` and `Debug` never change the validation verdict |
| Validation.UnparsedTargetCaughtLate | fs/config.go:180-182 | when no target in the option list parses and a mountpoint is set, the built configuration fails validation with "Target not set" |
| Validation.ExampleBuild | fs/config.go:120-189 | target `https://h/bucket/a/b`, cache `/tmp/c` and uid 1000 give bucket `bucket`, base path `a/b`, cache `/tmp/c` and uid 1000; validation fails until mountpoint `/mnt/x` is added, then passes |
| Bootstrap.FirstRunRecord | fs/config.go:71-76 | the first-run record has version "1" and each key equal to its environment variable, with "" when the variable is unset |
| Bootstrap.Override | fs/config.go:96-108 | the loaded record keeps its version; each key becomes its environment value when that is non-empty, and keeps the file value otherwise |
| Bootstrap.Init | fs/config.go:61-110 | returns only errors the host or the codec reported. A directory failure stops at once. A stat failure other than "not exist" neither reads nor writes. On the first run an encoding failure is returned with nothing written; otherwise the encoding of the first-run record is written, and the run returns the write error or that record. An existing file is read once and never written; a read or decoding failure is returned, and otherwise the decoded record with the environment override applied |
| Bootstrap.OverrideIdempotent | fs/config.go:96-108 | overriding twice with the same environment is overriding once |
| Bootstrap.OverrideWithoutEnv | fs/config.go:96-108 | with none of the three variables set, the loaded record is returned unchanged |
| Bootstrap.OverrideFirstRunRecord | fs/config.go:71-108 | the first-run record is unchanged by an override with the environment it was built from |
| Bootstrap.RestartReturnsSameRecord | fs/config.go:68-109 | assume decoding gives back what the first run encoded. Then a restart over the written file, with the same environment, returns the same record and writes nothing |
| Bootstrap.ExampleFirstRun | fs/config.go:68-84 | a first run with access key "A" and secret key "B" returns version "1", "A", "B", "" and writes the encoding of that same record |
| Bootstrap.ExampleSecondRun | fs/config.go:88-109 | a file holding "A"/"B" and the secret key variable set to "C" give "A"/"C"; the file is read and not written |

## Left out

- Options.Apply: Go strings are byte sequences, and `len(u.Path)` and `u.Path[1:]` count and drop bytes. The model's strings are sequences of characters. The two agree when the URL path starts with an ASCII character, which includes every path that starts with `/`. A path whose first character is non-ASCII is measured and sliced differently. For example, Go gives the path `é` a bucket made of that character's last byte, while the model sees a one-character path and keeps the earlier bucket.

- Paths.Join: models `path.Join` only for elements without `/`. Those are the only elements the configuration code passes, because they come from splitting on `/`. Rooted paths and slashes inside elements are not modelled.
- URL parsing: `url.Parse` is an abstract parser parameter. Only whether it succeeds and the resulting path are used.
- JSON: `json.Marshal` and `json.Unmarshal` are opaque, possibly failing, functions. No round trip is assumed, except as the explicit hypothesis of `Bootstrap.RestartReturnsSameRecord`.
- File system: `os.MkdirAll`, `os.Stat`, `ioutil.ReadFile` and `ioutil.WriteFile` become outcomes in `Host`. The permission bits 0777 and 0666 are not modelled. A partially written file after a write failure is not modelled.
- The directory and file paths `globalDBDir` and `globalConfigFile` are defined outside `fs/config.go` and are not part of this model.
- `MountTime = time.Now()` and `log.Println` are global side effects with no decision logic, and are not modelled.
- The loop that applies options to a `Config` is not in `fs/config.go`. `Options.Build` is the model's own in-order fold from the zero value.
- `Config` carries `mode` and the credential fields (`accountID`, `accessKey`, `secretKey`, `secretToken`). No option sets them, so they keep their starting values.
- Concurrency: two processes racing to create the credential file are not modelled. The bootstrap is single-threaded.
